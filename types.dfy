/** The record shapes of the ledger, the notifications and the session. */
module Types {
  import opened Common

  datatype LoanStatus = Paid | PartiallyPaid | Unpaid | Overdue

  datatype CustomerStatus = UpToDate | CustomerOverdue

  /** `totalOutstanding`, `nextDueDate` and `status` are derived by the status engine. */
  datatype Customer = Customer(
    id: string,
    name: string,
    phone: string,
    address: string,
    createdAt: Day,
    totalOutstanding: int,
    nextDueDate: Option<Day>,
    status: CustomerStatus)

  /** `status` and `remainingAmount` are derived by the status engine. */
  datatype Loan = Loan(
    id: string,
    customerId: string,
    description: string,
    amount: int,
    dueDate: Day,
    createdAt: Day,
    status: LoanStatus,
    remainingAmount: int)

  datatype Repayment = Repayment(
    id: string,
    loanId: string,
    customerId: string,
    amount: int,
    date: Day,
    notes: string)

  datatype ToastType = Success | Error | Warning | Info

  datatype Toast = Toast(id: string, kind: ToastType, message: string)

  datatype User = User(id: string, email: string, name: string)

  datatype AuthState = AuthState(
    user: Option<User>,
    isAuthenticated: bool,
    isLoading: bool,
    error: Option<string>)

  datatype CustomerFormData = CustomerFormData(name: string, phone: string, address: string)

  datatype LoanFormData = LoanFormData(description: string, amount: int, dueDate: Day)

  /** `notes` is absent when the optional field was never filled. */
  datatype RepaymentFormData = RepaymentFormData(amount: int, loanId: string, notes: Option<string>)
}
