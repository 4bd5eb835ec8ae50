/**
 * The ledger provider: the store's state held in a `Ledger` object whose add operations
 * build a record, dispatch it, recompute the statuses and report the outcome as a toast.
 * The recomputation runs synchronously on the state that already holds the new record.
 */
module LedgerProvider {
  import opened Common
  import opened Types
  import opened CustomerStore
  import opened StatusEngine
  import opened ToastContext

  class Ledger {
    var customers: seq<Customer>
    var loans: seq<Loan>
    var repayments: seq<Repayment>
    var isLoading: bool
    var error: Option<string>

    function State(): CustomerState
      reads this
    {
      CustomerState(customers, loans, repayments, isLoading, error)
    }

    constructor ()
      ensures State() == InitialState
    {
      customers, loans, repayments := [], [], [];
      isLoading, error := false, None;
    }

    /** `dispatch`: the state becomes the reducer's result. */
    method Dispatch(action: CustomerAction)
      modifies this
      ensures State() == CustomerReducer(old(State()), action)
    {
      var next := CustomerReducer(State(), action);
      customers, loans, repayments := next.customers, next.loans, next.repayments;
      isLoading, error := next.isLoading, next.error;
    }

    /** `updateLoanStatuses`: dispatches the recomputed collections. */
    method UpdateLoanStatuses(today: Day)
      modifies this
      ensures State() == Recompute(old(State()), today)
    {
      Dispatch(RecomputeAction(State(), today));
    }

    /** `addCustomer`: a new customer starts with nothing outstanding and is appended. */
    method AddCustomer(data: CustomerFormData, freshId: string, today: Day,
                       toasts: ToastQueue, toastId: string) returns (c: Customer)
      modifies this, toasts
      ensures c == NewCustomer(freshId, data, today)
      ensures State() == CustomerReducer(old(State()), CustomerAction.AddCustomer(c))
      ensures toasts.toasts == old(toasts.toasts) + [Toast(toastId, Success, "Customer added successfully!")]
    {
      c := NewCustomer(freshId, data, today);
      Dispatch(CustomerAction.AddCustomer(c));
      toasts.ShowToast(Success, "Customer added successfully!", toastId);
    }

    /** `addLoan`: the loan is appended as given (no store-level checks), then statuses are recomputed. */
    method AddLoan(customerId: string, data: LoanFormData, freshId: string, today: Day,
                   toasts: ToastQueue, toastId: string) returns (l: Loan)
      modifies this, toasts
      ensures l == NewLoan(freshId, customerId, data, today)
      ensures State() == Recompute(CustomerReducer(old(State()), CustomerAction.AddLoan(l)), today)
      ensures toasts.toasts == old(toasts.toasts) + [Toast(toastId, Success, "Loan added successfully!")]
    {
      l := NewLoan(freshId, customerId, data, today);
      Dispatch(CustomerAction.AddLoan(l));
      UpdateLoanStatuses(today);
      toasts.ShowToast(Success, "Loan added successfully!", toastId);
    }

    /** `addRepayment`: the repayment is appended as given (no clamping here), then statuses are recomputed. */
    method AddRepayment(customerId: string, data: RepaymentFormData, freshId: string, today: Day,
                        toasts: ToastQueue, toastId: string) returns (p: Repayment)
      modifies this, toasts
      ensures p == NewRepayment(freshId, customerId, data, today)
      ensures State() == Recompute(CustomerReducer(old(State()), CustomerAction.AddRepayment(p)), today)
      ensures toasts.toasts == old(toasts.toasts) + [Toast(toastId, Success, "Repayment recorded successfully!")]
    {
      p := NewRepayment(freshId, customerId, data, today);
      Dispatch(CustomerAction.AddRepayment(p));
      UpdateLoanStatuses(today);
      toasts.ShowToast(Success, "Repayment recorded successfully!", toastId);
    }
  }

  /** After a synchronous recompute the new loan is the last loan, recomputed against the repayments. */
  lemma AddLoanKeepsNewLoan(s: CustomerState, l: Loan, today: Day)
    ensures |Recompute(CustomerReducer(s, CustomerAction.AddLoan(l)), today).loans| == |s.loans| + 1
    ensures Recompute(CustomerReducer(s, CustomerAction.AddLoan(l)), today).loans[|s.loans|]
         == DeriveLoan(l, s.repayments, today)
    ensures Recompute(CustomerReducer(s, CustomerAction.AddLoan(l)), today).repayments == s.repayments
  {
  }

  /** After a synchronous recompute the new repayment is recorded at the end of the repayments. */
  lemma AddRepaymentKeepsNewRepayment(s: CustomerState, p: Repayment, today: Day)
    ensures Recompute(CustomerReducer(s, CustomerAction.AddRepayment(p)), today).repayments
         == s.repayments + [p]
    ensures |Recompute(CustomerReducer(s, CustomerAction.AddRepayment(p)), today).loans| == |s.loans|
  {
  }

  /**
   * The source defers the recompute with `setTimeout(() => updateLoanStatuses(), 0)`; the
   * callback is the one created in the same render as `addRepayment`, so it reads the state
   * from BEFORE the append and its FETCH_DATA_SUCCESS overwrites all three collections.
   */
  function DeferredAddRepaymentAsWritten(s: CustomerState, p: Repayment, today: Day): CustomerState {
    CustomerReducer(CustomerReducer(s, CustomerAction.AddRepayment(p)), RecomputeAction(s, today))
  }

  /** As written, the recorded repayment is gone once the deferred recompute has run. */
  lemma DeferredRecomputeDropsRepayment(s: CustomerState, p: Repayment, today: Day)
    requires p !in s.repayments
    ensures DeferredAddRepaymentAsWritten(s, p, today).repayments == s.repayments
    ensures p !in DeferredAddRepaymentAsWritten(s, p, today).repayments
    ensures p in CustomerReducer(s, CustomerAction.AddRepayment(p)).repayments
  {
    assert CustomerReducer(s, CustomerAction.AddRepayment(p)).repayments[|s.repayments|] == p;
  }
}
