/** Worked examples of the ledger, each stated on concrete records. */
module Scenarios {
  import opened Common
  import opened Types
  import opened CustomerStore
  import opened StatusEngine
  import opened RecordRepaymentPage

  const Today: Day := 100

  const Asha := Customer("c1", "Asha", "9876543210", "12 Market Road", 90, 0, None, UpToDate)

  function UnpaidLoan(id: string, amount: int, dueDate: Day): (l: Loan)
    ensures l.customerId == Asha.id && l.amount == amount && l.remainingAmount == amount
  {
    Loan(id, Asha.id, "Groceries", amount, dueDate, 90, Unpaid, amount)
  }

  function Store(loans: seq<Loan>, repayments: seq<Repayment>): CustomerState {
    CustomerState([Asha], loans, repayments, false, None)
  }

  /** A customer without loans owes nothing, has no next due date and is up to date. */
  lemma CustomerWithoutLoansScenario()
    ensures var s := Recompute(Store([], []), Today);
      s.customers[0].totalOutstanding == 0 && s.customers[0].nextDueDate == None
      && s.customers[0].status == UpToDate
  {
    CustomerWithoutLoans(Asha, []);
  }

  /** A loan of 1000 due yesterday, nothing repaid: 1000 remaining, overdue, and so is the customer. */
  lemma OverdueLoanScenario()
    ensures var s := Recompute(Store([UnpaidLoan("l1", 1000, Today - 1)], []), Today);
      s.loans[0].remainingAmount == 1000 && s.loans[0].status == Overdue
      && s.customers[0].status == CustomerOverdue && s.customers[0].totalOutstanding == 1000
  {
    var l := UnpaidLoan("l1", 1000, Today - 1);
    assert TotalRepaid([], "l1") == 0;
    var d := DeriveLoan(l, [], Today);
    assert d == l.(status := Overdue);
    var s := Recompute(Store([l], []), Today);
    assert s.loans == [d];
    OneOverdueLoan(d);
  }

  /** The customer side of the scenario above, on the recomputed loan. */
  lemma OneOverdueLoan(d: Loan)
    requires d.customerId == Asha.id && d.remainingAmount == 1000 && d.status == Overdue
    ensures DeriveCustomer(Asha, [d]).status == CustomerOverdue
    ensures DeriveCustomer(Asha, [d]).totalOutstanding == 1000
  {
    assert [d][..0] == [];
    assert GetCustomerLoans([d], Asha.id) == [d];
    assert SumRemaining([d]) == 1000;
    assert d in [d];
  }

  /** A loan of 500 with one repayment of 500 is paid, with nothing remaining. */
  lemma FullRepaymentScenario()
    ensures var s := Recompute(Store([UnpaidLoan("l1", 500, Today + 5)],
                                     [Repayment("r1", "l1", Asha.id, 500, Today, "")]), Today);
      s.loans[0].remainingAmount == 0 && s.loans[0].status == Paid
  {
    var p := Repayment("r1", "l1", Asha.id, 500, Today, "");
    assert [p][..0] == [];
    assert GetLoanRepayments([p], "l1") == [p];
    assert SumAmounts([p]) == 500;
    assert TotalRepaid([p], "l1") == 500;
  }

  /** Two open loans due in 3 and in 10 days: the next due date is the earlier one. */
  lemma NextDueDateScenario()
    ensures var s := Recompute(Store([UnpaidLoan("l1", 200, Today + 3), UnpaidLoan("l2", 300, Today + 10)], []), Today);
      s.customers[0].nextDueDate == Some(Today + 3) && s.customers[0].totalOutstanding == 500
  {
    var a := UnpaidLoan("l1", 200, Today + 3);
    var b := UnpaidLoan("l2", 300, Today + 10);
    OpenLoansAreCurrent(a, b);
    var s := Recompute(Store([a, b], []), Today);
    assert s.customers == UpdateCustomerStatuses([Asha], [a, b]);
    TwoOpenLoans(a, b);
  }

  lemma OpenLoansAreCurrent(a: Loan, b: Loan)
    requires a.status == Unpaid && a.remainingAmount == a.amount > 0 && a.dueDate >= Today
    requires b.status == Unpaid && b.remainingAmount == b.amount > 0 && b.dueDate >= Today
    ensures UpdateLoanStatuses([a, b], [], Today) == [a, b]
  {
    OpenLoanIsCurrent(a);
    OpenLoanIsCurrent(b);
    assert [a, b][..1] == [a] && [a][..0] == [];
    assert UpdateLoanStatuses([a], [], Today) == [a];
  }

  /** An unpaid loan not yet due, with nothing repaid, is already in its derived state. */
  lemma OpenLoanIsCurrent(l: Loan)
    requires l.status == Unpaid && l.remainingAmount == l.amount > 0 && l.dueDate >= Today
    ensures DeriveLoan(l, [], Today) == l
  {
    assert TotalRepaid([], l.id) == 0;
  }

  /** The customer side of the scenario above, on the recomputed loans. */
  lemma TwoOpenLoans(a: Loan, b: Loan)
    requires a.customerId == Asha.id && b.customerId == Asha.id
    requires a.remainingAmount == 200 && b.remainingAmount == 300
    requires a.dueDate == Today + 3 && b.dueDate == Today + 10
    ensures DeriveCustomer(Asha, [a, b]).nextDueDate == Some(Today + 3)
    ensures DeriveCustomer(Asha, [a, b]).totalOutstanding == 500
  {
    assert [a, b][..1] == [a] && [a][..0] == [];
    assert GetCustomerLoans([a], Asha.id) == [a];
    assert GetCustomerLoans([a, b], Asha.id) == [a, b];
    assert SumRemaining([a]) == 200;
    assert SumRemaining([a, b]) == 500;
    assert EarliestDueDate([a]) == Some(Today + 3);
    assert EarliestDueDate([a, b]) == Some(Today + 3);
  }

  /** Entering 400 against a loan with 300 remaining is refused by the form before any cap applies. */
  lemma OverpaymentIsRefusedByTheForm()
    ensures RepaymentAmountError(Some(400), Some(UnpaidLoan("l1", 300, Today + 5)))
         == Some("Amount cannot exceed the remaining amount")
    ensures ClampAmount(Some(UnpaidLoan("l1", 300, Today + 5)), 400) == 300
  {
  }
}
