/** How many training characters a tenant has: the stored carryover against the history of add-on
    invoices (backend/apps/billing/service.py, backend/apps/billing/payment.py, backend/apps/billing/repositories.py).
 */
module TrainingAllowance {
  import opened Basics
  import opened Proration

  // ------------------------------------------------------------------ paying

  /** The configured provider; any other name is not supported. */
  datatype Provider = Simulated | StripeTest | Manual | Unsupported

  /** What the card service answers. */
  datatype Reply = Unreachable | HttpError | PaymentStatus(status: string)

  datatype Gateway = Gateway(provider: Provider, keySet: bool, reply: Reply)

  datatype InvoiceStatus = SimulatedPaid | Paid | ManualPaid

  predicate PaymentSucceeds(g: Gateway, amount: int) {
    match g.provider
    case Simulated => true
    case StripeTest =>
      && g.keySet
      && (amount <= 0
          || (g.reply.PaymentStatus?
              && (g.reply.status == "succeeded" || g.reply.status == "processing" || g.reply.status == "requires_capture")))
    case Manual => false
    case Unsupported => false
  }

  function InvoicePaidStatus(p: Provider): InvoiceStatus {
    match p case Simulated => SimulatedPaid case StripeTest => Paid case _ => ManualPaid
  }

  // ------------------------------------------------------------------ accounts

  datatype Invoice = Invoice(chars: nat, quantity: int, status: InvoiceStatus)

  datatype Account = Account(plan: string, carryover: nat, invoices: seq<Invoice>)

  type Catalogue = c: map<string, Plan> | "free" in c witness DEFAULT_PLANS

  function Included(plans: Catalogue, a: Account): nat { PlanOf(plans, a.plan).trainingChars }

  function Size(chars: nat, quantity: int): nat { chars * Max(1, quantity) }

  /** The query that sums add-ons asks for two of the three statuses. */
  predicate Counted(i: Invoice) { i.status == SimulatedPaid || i.status == Paid }

  function Invoiced(invoices: seq<Invoice>): nat {
    if invoices == [] then 0
    else
      var last := invoices[|invoices| - 1];
      Invoiced(invoices[..|invoices| - 1]) + if Counted(last) then Size(last.chars, last.quantity) else 0
  }

  function Available(plans: Catalogue, a: Account): int {
    Max(Max(Included(plans, a), a.carryover), Included(plans, a) + Invoiced(a.invoices))
  }

  datatype Op =
    | Buy(gateway: Gateway, price: nat, chars: nat, quantity: int)
    | ChangeNow(plan: string)       // an immediate plan change
    | SwitchScheduled(plan: string) // a scheduled change taking effect

  /** A purchase goes through exactly if its payment does. */
  predicate Accepted(op: Op) { op.Buy? && PaymentSucceeds(op.gateway, op.price * Max(1, op.quantity)) }

  function Perform(plans: Catalogue, a: Account, op: Op): Account {
    match op
    case Buy(g, _, chars, quantity) =>
      if !Accepted(op) then a
      else
        a.(carryover := Max(a.carryover, Included(plans, a)) + Size(chars, quantity),
           invoices := a.invoices + [Invoice(chars, Max(1, quantity), InvoicePaidStatus(g.provider))])
    case ChangeNow(plan) => a.(plan := plan, carryover := Max(a.carryover, PlanOf(plans, plan).trainingChars))
    case SwitchScheduled(plan) => a.(plan := plan)
  }

  function Run(plans: Catalogue, a: Account, ops: seq<Op>): Account
    decreases |ops|
  {
    if ops == [] then a else Run(plans, Perform(plans, a, ops[0]), ops[1..])
  }

  class AccountRow {
    var plan: string
    var carryover: nat
    var invoices: seq<Invoice>

    constructor (plans: Catalogue, plan: string)
      ensures Row() == Account(plan, PlanOf(plans, plan).trainingChars, [])
    {
      this.plan, carryover, invoices := plan, PlanOf(plans, plan).trainingChars, [];
    }

    ghost function Row(): Account
      reads this
    {
      Account(plan, carryover, invoices)
    }

    /** False stands for the error raised when the payment fails; nothing has been written then. */
    method PurchaseTrainingAddon(plans: Catalogue, g: Gateway, price: nat, chars: nat, quantity: int) returns (accepted: bool)
      modifies this
      ensures accepted == Accepted(Buy(g, price, chars, quantity))
      ensures Row() == Perform(plans, old(Row()), Buy(g, price, chars, quantity))
      ensures accepted ==> |invoices| == |old(invoices)| + 1 && Counted(invoices[|invoices| - 1])
      ensures Available(plans, Row()) == old(Available(plans, Row())) + if accepted then Size(chars, quantity) else 0
    {
      PurchaseRaisesByItsSize(plans, Row(), Buy(g, price, chars, quantity));
      var qty := if quantity < 1 then 1 else quantity;
      if !PaymentSucceeds(g, price * qty) {
        return false;
      }
      var included := PlanOf(plans, plan).trainingChars;
      if carryover < included {
        carryover := included;
      }
      carryover := carryover + chars * qty;
      invoices := invoices + [Invoice(chars, qty, InvoicePaidStatus(g.provider))];
      accepted := true;
    }

    method ApplyImmediatePlanChange(plans: Catalogue, next: string)
      modifies this
      ensures Row() == Perform(plans, old(Row()), ChangeNow(next))
    {
      var included := PlanOf(plans, next).trainingChars;
      plan := next;
      if carryover < included {
        carryover := included;
      }
    }

    method AvailableTrainingChars(plans: Catalogue) returns (chars: int)
      ensures chars == Available(plans, Row())
    {
      var total := 0;
      for i := 0 to |invoices|
        invariant total == Invoiced(invoices[..i])
      {
        assert invoices[..i + 1][..i] == invoices[..i];
        if Counted(invoices[i]) {
          total := total + Size(invoices[i].chars, invoices[i].quantity);
        }
      }
      assert invoices[..|invoices|] == invoices;
      var included := PlanOf(plans, plan).trainingChars;
      chars := if included < carryover then carryover else included;
      chars := if chars < included + total then included + total else chars;
    }
  }

  // ------------------------------------------------------------------ what a purchase does

  lemma InvoiceAppends(invoices: seq<Invoice>, i: Invoice)
    ensures Invoiced(invoices + [i]) == Invoiced(invoices) + if Counted(i) then Size(i.chars, i.quantity) else 0
  {
    assert (invoices + [i])[..|invoices|] == invoices;
  }

  /** The query leaves out the manually paid status, but the payment gate never lets such an invoice be written:
      a provider's payments can succeed exactly if its invoices are counted. */
  lemma PayingProvidersAreCounted(p: Provider, chars: nat, quantity: int)
    ensures Counted(Invoice(chars, quantity, InvoicePaidStatus(p))) <==>
            exists keySet, reply, amount :: PaymentSucceeds(Gateway(p, keySet, reply), amount)
  {
    if p == Simulated || p == StripeTest {
      assert PaymentSucceeds(Gateway(p, true, Unreachable), 0);
    }
  }

  lemma AcceptedInvoice(op: Op, i: Invoice)
    requires Accepted(op) && i == Invoice(op.chars, Max(1, op.quantity), InvoicePaidStatus(op.gateway.provider))
    ensures Counted(i) && Size(i.chars, i.quantity) == Size(op.chars, op.quantity)
  {
    PayingProvidersAreCounted(op.gateway.provider, i.chars, i.quantity);
  }

  lemma Raise(included: nat, carryover: nat, invoiced: nat, size: nat)
    ensures Max(Max(included, Max(carryover, included) + size), included + (invoiced + size))
         == Max(Max(included, carryover), included + invoiced) + size
  {
  }

  /** An accepted purchase raises the available characters by exactly its size, a refused one by nothing. */
  lemma PurchaseRaisesByItsSize(plans: Catalogue, a: Account, op: Op)
    requires op.Buy?
    ensures
      var b := Perform(plans, a, op);
      && Available(plans, b) == Available(plans, a) + (if Accepted(op) then Size(op.chars, op.quantity) else 0)
      && Invoiced(b.invoices) == Invoiced(a.invoices) + (if Accepted(op) then Size(op.chars, op.quantity) else 0)
  {
    if Accepted(op) {
      var i := Invoice(op.chars, Max(1, op.quantity), InvoicePaidStatus(op.gateway.provider));
      AcceptedInvoice(op, i);
      InvoiceAppends(a.invoices, i);
      Raise(Included(plans, a), a.carryover, Invoiced(a.invoices), Size(op.chars, op.quantity));
    }
  }

  /** A quantity below one counts as one, in what is paid and in what is bought. */
  lemma QuantityIs(op: Op)
    requires op.Buy?
    ensures
      var quantity := if op.quantity < 1 then 1 else op.quantity;
      && (Accepted(op) <==> PaymentSucceeds(op.gateway, op.price * quantity))
      && Size(op.chars, op.quantity) == op.chars * quantity
  {
  }

  /** The allowance is what the plan includes plus what the invoices show, exactly while the carryover does
      not exceed that; it is never less. */
  lemma AllowanceAgainstInvoices(plans: Catalogue, a: Account)
    ensures Available(plans, a) >= Included(plans, a) + Invoiced(a.invoices)
    ensures Available(plans, a) == Included(plans, a) + Invoiced(a.invoices) <==>
            a.carryover <= Included(plans, a) + Invoiced(a.invoices)
  {
  }

  /** Everything but plan changes that reduce the included characters. */
  predicate Keeping(plans: Catalogue, a: Account, op: Op) {
    match op
    case Buy(_, _, _, _) => true
    case ChangeNow(plan) => PlanOf(plans, plan).trainingChars >= Included(plans, a)
    case SwitchScheduled(plan) => PlanOf(plans, plan).trainingChars >= Included(plans, a)
  }

  predicate AllKeeping(plans: Catalogue, a: Account, ops: seq<Op>)
    decreases |ops|
  {
    ops == [] || (Keeping(plans, a, ops[0]) && AllKeeping(plans, Perform(plans, a, ops[0]), ops[1..]))
  }

  /** What the accepted purchases among the operations add up to. */
  function Bought(ops: seq<Op>): nat
    decreases |ops|
  {
    if ops == [] then 0
    else (if Accepted(ops[0]) then Size(ops[0].chars, ops[0].quantity) else 0) + Bought(ops[1..])
  }

  /** In any run of purchases, paid or refused, and plan changes that do not reduce the included characters, the
      allowance is what the plan includes plus everything ever bought. */
  lemma {:induction false} AllowanceIsIncludedPlusPurchased(plans: Catalogue, a: Account, ops: seq<Op>)
    requires AllKeeping(plans, a, ops) && a.carryover <= Included(plans, a) + Invoiced(a.invoices)
    ensures
      var b := Run(plans, a, ops);
      Available(plans, b) == Included(plans, b) + Invoiced(a.invoices) + Bought(ops)
    decreases |ops|
  {
    if ops != [] {
      if ops[0].Buy? {
        PurchaseRaisesByItsSize(plans, a, ops[0]);
      }
      AllowanceIsIncludedPlusPurchased(plans, Perform(plans, a, ops[0]), ops[1..]);
    }
  }

  /** A new account starts within that bound, so only what it bought comes on top of its plan. */
  lemma AllowanceOfNewAccount(plans: Catalogue, plan: string, ops: seq<Op>)
    requires AllKeeping(plans, Account(plan, PlanOf(plans, plan).trainingChars, []), ops)
    ensures
      var b := Run(plans, Account(plan, PlanOf(plans, plan).trainingChars, []), ops);
      Available(plans, b) == Included(plans, b) + Bought(ops)
  {
    AllowanceIsIncludedPlusPurchased(plans, Account(plan, PlanOf(plans, plan).trainingChars, []), ops);
  }

  /** One plan change keeps the allowance at plan plus purchases exactly if the new plan includes at least what
      the carryover has beyond the purchases. */
  lemma PlanChangeKeepsAllowanceIff(plans: Catalogue, a: Account, op: Op)
    requires op.ChangeNow? || op.SwitchScheduled?
    ensures
      var b := Perform(plans, a, op);
      Available(plans, b) == Included(plans, b) + Invoiced(a.invoices) <==>
      a.carryover <= PlanOf(plans, op.plan).trainingChars + Invoiced(a.invoices)
  {
    AllowanceAgainstInvoices(plans, Perform(plans, a, op));
  }

  /** With the default plans an accepted upgrade never reduces the included characters. */
  lemma UpgradesKeepTraining(a: Account, next: string)
    requires UpgradeTarget(DEFAULT_PLANS, a.plan, next)
    ensures Keeping(DEFAULT_PLANS, a, ChangeNow(next))
  {
  }

  /** What an immediate change reached is not lost by any later switch: the allowance stays at least what each plan entered
      that way included. */
  lemma ImmediateChangeIsKept(plans: Catalogue, a: Account, plan: string, later: string)
    ensures
      var b := Perform(plans, a, ChangeNow(plan));
      && b.plan == plan && b.invoices == a.invoices
      && b.carryover == Max(a.carryover, PlanOf(plans, plan).trainingChars)
      && Available(plans, Perform(plans, b, SwitchScheduled(later))) >= PlanOf(plans, plan).trainingChars
  {
  }

  /** When a payment goes through: always when simulated; with the card service only with a key, and then for nothing to
      pay or one of three states; never by hand or with another provider. */
  lemma PaymentSucceedsIff(g: Gateway, amount: int)
    ensures PaymentSucceeds(g, amount) <==>
            || g.provider == Simulated
            || (g.provider == StripeTest && g.keySet
                && (amount <= 0
                    || g.reply == PaymentStatus("succeeded") || g.reply == PaymentStatus("processing")
                    || g.reply == PaymentStatus("requires_capture")))
  {
  }
}
