/**
 * The record-repayment page: the loans it offers, the selected loan, the field rules, and the
 * submit handler that caps the amount at the selected loan's remaining amount.
 */
module RecordRepaymentPage {
  import opened Common
  import opened Types
  import opened FormRules
  import opened CustomerStore
  import opened StatusEngine
  import opened ToastContext
  import opened LedgerProvider

  /** The repayment form as entered; a blank amount is absent. */
  datatype RepaymentForm = RepaymentForm(amount: Option<int>, loanId: string, notes: Option<string>)

  /** `loans.filter(loan => loan.status !== 'paid')`. */
  function NotPaid(loans: seq<Loan>): (r: seq<Loan>)
    ensures forall l :: l in r <==> l in loans && l.status != Paid
  {
    if |loans| == 0 then []
    else
      var last := loans[|loans| - 1];
      NotPaid(loans[..|loans| - 1]) + (if last.status != Paid then [last] else [])
  }

  /** The loans the form offers: the customer's loans that are not `paid`. */
  function OfferedLoans(loans: seq<Loan>, customerId: string): (r: seq<Loan>)
    ensures forall l :: l in r <==> l in loans && l.customerId == customerId && l.status != Paid
  {
    NotPaid(GetCustomerLoans(loans, customerId))
  }

  /** `offered.find(loan => loan.id === loanId)`: the first offered loan with that id. */
  function SelectedLoan(offered: seq<Loan>, loanId: string): (r: Option<Loan>)
    ensures r.None? <==> forall l :: l in offered ==> l.id != loanId
    ensures r.Some? ==> r.value in offered && r.value.id == loanId
    ensures r.Some? ==> exists k :: 0 <= k < |offered| && offered[k] == r.value
                                   && forall j :: 0 <= j < k ==> offered[j].id != loanId
  {
    if |offered| == 0 then None
    else if offered[0].id == loanId then Some(offered[0])
    else
      var r := SelectedLoan(offered[1..], loanId);
      if r.Some? then
        ghost var k :| 0 <= k < |offered[1..]| && offered[1..][k] == r.value
                       && forall j :: 0 <= j < k ==> offered[1..][j].id != loanId;
        assert offered[k + 1] == r.value;
        r
      else r
  }

  /** The amount handed on: capped at the selected loan's remaining amount, unchanged without a selection. */
  function ClampAmount(selected: Option<Loan>, amount: int): (r: int)
    ensures selected.None? ==> r == amount
    ensures selected.Some? && amount > selected.value.remainingAmount ==> r == selected.value.remainingAmount
    ensures selected.Some? && amount <= selected.value.remainingAmount ==> r == amount
    ensures r <= amount && (selected.Some? ==> r <= selected.value.remainingAmount)
  {
    if selected.Some? && amount > selected.value.remainingAmount then selected.value.remainingAmount
    else amount
  }

  function LoanIdError(loanId: string): (err: Option<string>)
    ensures err == None <==> loanId != ""
  {
    if loanId == "" then Some("Please select a loan") else None
  }

  /** `required`, `min: 1`, and `max`: the selected loan's remaining amount, or no bound without a selection. */
  function RepaymentAmountError(amount: Option<int>, selected: Option<Loan>): (err: Option<string>)
    ensures err == None <==>
      amount.Some? && amount.value >= 1
      && (selected.Some? ==> amount.value <= selected.value.remainingAmount)
    ensures amount.None? ==> err == Some("Amount is required")
  {
    if amount.None? then Some("Amount is required")
    else if amount.value < 1 then Some("Amount must be greater than 0")
    else if selected.Some? && amount.value > selected.value.remainingAmount then
      Some("Amount cannot exceed the remaining amount")
    else None
  }

  predicate RepaymentFormValid(form: RepaymentForm, selected: Option<Loan>) {
    LoanIdError(form.loanId).None? && RepaymentAmountError(form.amount, selected).None?
  }

  /** A form that passes the rules is never capped: the cap only acts when the rules were bypassed. */
  lemma ValidFormIsNotClamped(form: RepaymentForm, selected: Option<Loan>)
    requires RepaymentFormValid(form, selected)
    ensures ClampAmount(selected, form.amount.value) == form.amount.value
  {
  }

  /**
   * With the engine: when the selected loan's remaining amount is current, recording the capped
   * amount settles the loan exactly (remaining 0, `paid`) if at least the remaining amount was
   * entered, and lowers it by the amount entered otherwise.
   */
  lemma CappedRepaymentSettles(s: CustomerState, k: nat, selected: Option<Loan>, amount: int,
                               p: Repayment, today: Day)
    requires selected.Some? && k < |s.loans| && s.loans[k] == selected.value
    requires RemainingIsCurrent(s.loans[k], s.repayments)
    requires amount >= 1
    requires p.loanId == selected.value.id && p.amount == ClampAmount(selected, amount)
    ensures k < |Recompute(CustomerReducer(s, CustomerAction.AddRepayment(p)), today).loans|
    ensures amount >= selected.value.remainingAmount ==>
      Recompute(CustomerReducer(s, CustomerAction.AddRepayment(p)), today).loans[k].remainingAmount == 0
      && Recompute(CustomerReducer(s, CustomerAction.AddRepayment(p)), today).loans[k].status == Paid
    ensures amount < selected.value.remainingAmount ==>
      Recompute(CustomerReducer(s, CustomerAction.AddRepayment(p)), today).loans[k].remainingAmount
      == selected.value.remainingAmount - amount
  {
    RepaymentReducesRemaining(s, k, p, today);
  }

  /** The page for one customer, as mounted from the route. */
  class RepaymentPage {
    const customerId: string
    var isSubmitting: bool

    constructor (customerId: string)
      ensures this.customerId == customerId && !isSubmitting
    {
      this.customerId := customerId;
      isSubmitting := false;
    }

    /**
     * The customer is looked up first (unknown: redirect to /404); a customer without an
     * offered loan gets no form; the form library calls `onSubmit` only for a valid form;
     * `onSubmit` caps the amount at the selected loan's remaining amount and calls `addRepayment`.
     */
    method Submit(ledger: Ledger, form: RepaymentForm, freshId: string, today: Day,
                  toasts: ToastQueue, toastId: string) returns (outcome: SubmitOutcome<Repayment>)
      modifies this, ledger, toasts
      ensures GetCustomerById(old(ledger.customers), customerId).None? <==> outcome.CustomerNotFound?
      ensures outcome.Submitted? ==>
        var offered := OfferedLoans(old(ledger.loans), customerId);
        var selected := SelectedLoan(offered, form.loanId);
        && offered != [] && RepaymentFormValid(form, selected)
        && outcome.record == NewRepayment(freshId, customerId,
             RepaymentFormData(ClampAmount(selected, form.amount.value), form.loanId, form.notes), today)
        && outcome.record.amount == form.amount.value >= 1
        && (selected.Some? ==> outcome.record.amount <= selected.value.remainingAmount)
        && ledger.State() == Recompute(CustomerReducer(old(ledger.State()), CustomerAction.AddRepayment(outcome.record)), today)
        && toasts.toasts == old(toasts.toasts) + [Toast(toastId, Success, "Repayment recorded successfully!")]
        && isSubmitting
      ensures outcome.Submitted? <==>
        && GetCustomerById(old(ledger.customers), customerId).Some?
        && OfferedLoans(old(ledger.loans), customerId) != []
        && RepaymentFormValid(form, SelectedLoan(OfferedLoans(old(ledger.loans), customerId), form.loanId))
      ensures outcome.NoForm? <==>
        GetCustomerById(old(ledger.customers), customerId).Some? && OfferedLoans(old(ledger.loans), customerId) == []
      ensures !outcome.Submitted? ==>
        ledger.State() == old(ledger.State()) && toasts.toasts == old(toasts.toasts)
        && isSubmitting == old(isSubmitting)
    {
      var customer := GetCustomerById(ledger.customers, customerId);
      if customer.None? {
        return CustomerNotFound;
      }
      var offered := OfferedLoans(ledger.loans, customer.value.id);
      if offered == [] {
        return NoForm;
      }
      var selected := SelectedLoan(offered, form.loanId);
      if !RepaymentFormValid(form, selected) {
        return Invalid;
      }
      isSubmitting := true;
      // The rules already bound the amount by the same selection, so this cap never changes it.
      var amount := ClampAmount(selected, form.amount.value);
      ValidFormIsNotClamped(form, selected);
      var data := RepaymentFormData(amount, form.loanId, form.notes);
      var p := ledger.AddRepayment(customer.value.id, data, freshId, today, toasts, toastId);
      outcome := Submitted(p);
    }
  }
}
