/** The add-loan page: the customer guard, the field rules, the default due date and the submit handler. */
module AddLoanPage {
  import opened Common
  import opened Types
  import opened FormRules
  import opened CustomerStore
  import opened StatusEngine
  import opened ToastContext
  import opened LedgerProvider

  /** The loan form as entered; a blank number or date field is absent. */
  datatype LoanForm = LoanForm(description: string, amount: Option<int>, dueDate: Option<Day>)

  /**
   * The due-date field's default: seven days after the current date. The page takes the date
   * from the UTC calendar (an ISO timestamp cut at `T`), so `utcToday` is the UTC day number.
   */
  function DefaultDueDate(utcToday: Day): (d: Day)
    ensures d - utcToday == 7
  {
    utcToday + 7
  }

  function DescriptionError(description: string): (err: Option<string>)
    ensures err == None <==> Utf16Length(description) >= 3
    ensures description == "" ==> err == Some("Description is required")
  {
    TextRules(description, "Description is required", 3, "Description must be at least 3 characters")
  }

  function LoanAmountError(amount: Option<int>): (err: Option<string>)
    ensures err == None <==> amount.Some? && amount.value >= 1
    ensures amount.None? ==> err == Some("Amount is required")
  {
    if amount.None? then Some("Amount is required")
    else if amount.value < 1 then Some("Amount must be greater than 0")
    else None
  }

  function DueDateError(dueDate: Option<Day>): (err: Option<string>)
    ensures err == None <==> dueDate.Some?
  {
    if dueDate.None? then Some("Due date is required") else None
  }

  predicate LoanFormValid(form: LoanForm) {
    DescriptionError(form.description).None? && LoanAmountError(form.amount).None?
    && DueDateError(form.dueDate).None?
  }

  /**
   * The page looks the customer up first and redirects when it is unknown; only then may the
   * form be submitted, and `addLoan` receives the id of the customer that was found.
   */
  method SubmitLoan(ledger: Ledger, customerId: string, form: LoanForm, freshId: string, today: Day,
                    toasts: ToastQueue, toastId: string) returns (outcome: SubmitOutcome<Loan>)
    modifies ledger, toasts
    ensures GetCustomerById(old(ledger.customers), customerId).None? <==> outcome.CustomerNotFound?
    ensures outcome.Submitted? <==>
      GetCustomerById(old(ledger.customers), customerId).Some? && LoanFormValid(form)
    ensures outcome.Submitted? ==>
      outcome.record == NewLoan(freshId, customerId,
                                LoanFormData(form.description, form.amount.value, form.dueDate.value), today)
      && outcome.record.amount >= 1
      && ledger.State() == Recompute(CustomerReducer(old(ledger.State()), CustomerAction.AddLoan(outcome.record)), today)
      && toasts.toasts == old(toasts.toasts) + [Toast(toastId, Success, "Loan added successfully!")]
    ensures outcome.Submitted? ==>
      exists c :: c in old(ledger.customers) && c.id == outcome.record.customerId
    ensures !outcome.Submitted? ==>
      ledger.State() == old(ledger.State()) && toasts.toasts == old(toasts.toasts)
  {
    var customer := GetCustomerById(ledger.customers, customerId);
    if customer.None? {
      return CustomerNotFound;
    }
    if !LoanFormValid(form) {
      return Invalid;
    }
    ghost var owner := customer.value;
    assert owner in ledger.customers && owner.id == customerId;
    var data := LoanFormData(form.description, form.amount.value, form.dueDate.value);
    var l := ledger.AddLoan(customer.value.id, data, freshId, today, toasts, toastId);
    outcome := Submitted(l);
  }

}
