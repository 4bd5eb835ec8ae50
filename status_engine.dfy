/**
 * The status engine: from the loans, the repayments and today's date it recomputes every
 * loan's `remainingAmount` and `status`, then every customer's `totalOutstanding`,
 * `nextDueDate` and `status`.
 */
module StatusEngine {
  import opened Common
  import opened Types
  import opened CustomerStore

  /** `reduce((sum, r) => sum + r.amount, 0)`, folded from the left. */
  function SumAmounts(repayments: seq<Repayment>): int {
    if |repayments| == 0 then 0
    else SumAmounts(repayments[..|repayments| - 1]) + repayments[|repayments| - 1].amount
  }

  lemma {:induction false} SumAmountsConcat(a: seq<Repayment>, b: seq<Repayment>)
    ensures SumAmounts(a + b) == SumAmounts(a) + SumAmounts(b)
    decreases |b|
  {
    if |b| == 0 {
      assert a + b == a;
    } else {
      var b' := b[..|b| - 1];
      assert (a + b)[..|a + b| - 1] == a + b';
      SumAmountsConcat(a, b');
    }
  }

  /** The total repaid against a loan id. */
  function TotalRepaid(repayments: seq<Repayment>, loanId: string): int {
    SumAmounts(GetLoanRepayments(repayments, loanId))
  }

  /** Appending a repayment adds its amount to its own loan's total and to no other. */
  lemma TotalRepaidAppend(repayments: seq<Repayment>, p: Repayment, loanId: string)
    ensures TotalRepaid(repayments + [p], loanId)
         == TotalRepaid(repayments, loanId) + (if p.loanId == loanId then p.amount else 0)
  {
    GetLoanRepaymentsConcat(repayments, [p], loanId);
    var own := GetLoanRepayments([p], loanId);
    assert [p][..0] == [];
    assert own == if p.loanId == loanId then [p] else [];
    assert SumAmounts(own) == if p.loanId == loanId then p.amount else 0 by {
      if p.loanId == loanId { assert own[..0] == []; }
    }
    SumAmountsConcat(GetLoanRepayments(repayments, loanId), own);
  }

  /** Recomputes one loan's derived fields; every other field is kept. */
  function DeriveLoan(loan: Loan, repayments: seq<Repayment>, today: Day): (r: Loan)
    ensures r.remainingAmount == Max(0, loan.amount - TotalRepaid(repayments, loan.id))
    ensures r.remainingAmount >= 0
    ensures r.status == Paid <==> loan.amount - TotalRepaid(repayments, loan.id) <= 0
    ensures r.status == Paid <==> r.remainingAmount == 0
    ensures r.status == Overdue <==> r.remainingAmount > 0 && loan.dueDate < today
    ensures r.status == PartiallyPaid <==>
              0 < r.remainingAmount < loan.amount && !(loan.dueDate < today)
    ensures r.status == Unpaid <==>
              0 < r.remainingAmount && loan.amount <= r.remainingAmount && !(loan.dueDate < today)
    ensures r.id == loan.id && r.customerId == loan.customerId && r.description == loan.description
    ensures r.amount == loan.amount && r.dueDate == loan.dueDate && r.createdAt == loan.createdAt
  {
    var remaining := loan.amount - TotalRepaid(repayments, loan.id);
    var base := if remaining <= 0 then Paid
                else if remaining < loan.amount then PartiallyPaid
                else Unpaid;
    var status := if remaining > 0 && loan.dueDate < today then Overdue else base;
    loan.(status := status, remainingAmount := Max(0, remaining))
  }

  /** `loans.map(...)`: same length, same order, each loan recomputed. */
  function UpdateLoanStatuses(loans: seq<Loan>, repayments: seq<Repayment>, today: Day): (r: seq<Loan>)
    ensures |r| == |loans|
    ensures forall i :: 0 <= i < |loans| ==> r[i] == DeriveLoan(loans[i], repayments, today)
  {
    if |loans| == 0 then []
    else UpdateLoanStatuses(loans[..|loans| - 1], repayments, today)
           + [DeriveLoan(loans[|loans| - 1], repayments, today)]
  }

  /** `reduce((sum, loan) => sum + loan.remainingAmount, 0)`. */
  function SumRemaining(loans: seq<Loan>): int {
    if |loans| == 0 then 0
    else SumRemaining(loans[..|loans| - 1]) + loans[|loans| - 1].remainingAmount
  }

  lemma {:induction false} SumRemainingNonNegative(loans: seq<Loan>)
    requires forall l :: l in loans ==> l.remainingAmount >= 0
    ensures SumRemaining(loans) >= 0
  {
    if |loans| > 0 {
      assert loans[|loans| - 1] in loans;
      SumRemainingNonNegative(loans[..|loans| - 1]);
    }
  }

  /**
   * The earliest due date among the loans with a positive remaining amount, or none; the
   * source sorts those loans by due date and takes the first.
   */
  function EarliestDueDate(loans: seq<Loan>): (r: Option<Day>)
    ensures r.None? <==> forall l :: l in loans ==> l.remainingAmount <= 0
    ensures r.Some? ==> exists l :: l in loans && l.remainingAmount > 0 && l.dueDate == r.value
    ensures r.Some? ==> forall l :: l in loans && l.remainingAmount > 0 ==> r.value <= l.dueDate
  {
    if |loans| == 0 then None
    else
      var init := loans[..|loans| - 1];
      var last := loans[|loans| - 1];
      assert forall l :: l in loans <==> l in init || l == last;
      var rest := EarliestDueDate(init);
      if last.remainingAmount <= 0 then rest
      else if rest.Some? && rest.value <= last.dueDate then rest
      else Some(last.dueDate)
  }

  /** `customerLoans.some(loan => loan.status === 'overdue')`. */
  predicate HasOverdueLoan(loans: seq<Loan>) {
    exists l :: l in loans && l.status == Overdue
  }

  /** Recomputes one customer's derived fields from the (already recomputed) loans. */
  function DeriveCustomer(c: Customer, loans: seq<Loan>): (r: Customer)
    ensures r.totalOutstanding == SumRemaining(GetCustomerLoans(loans, c.id))
    ensures r.status == CustomerOverdue <==>
              exists l :: l in loans && l.customerId == c.id && l.status == Overdue
    ensures r.nextDueDate.None? <==>
              forall l :: l in loans && l.customerId == c.id ==> l.remainingAmount <= 0
    ensures r.nextDueDate.Some? ==>
              exists l :: l in loans && l.customerId == c.id && l.remainingAmount > 0
                          && l.dueDate == r.nextDueDate.value
    ensures r.nextDueDate.Some? ==>
              forall l :: l in loans && l.customerId == c.id && l.remainingAmount > 0
                          ==> r.nextDueDate.value <= l.dueDate
    ensures r.id == c.id && r.name == c.name && r.phone == c.phone
    ensures r.address == c.address && r.createdAt == c.createdAt
  {
    var own := GetCustomerLoans(loans, c.id);
    c.(totalOutstanding := SumRemaining(own),
       nextDueDate := EarliestDueDate(own),
       status := if HasOverdueLoan(own) then CustomerOverdue else UpToDate)
  }

  /** `state.customers.map(...)`: same length, same order, each customer recomputed. */
  function UpdateCustomerStatuses(customers: seq<Customer>, loans: seq<Loan>): (r: seq<Customer>)
    ensures |r| == |customers|
    ensures forall i :: 0 <= i < |customers| ==> r[i] == DeriveCustomer(customers[i], loans)
  {
    if |customers| == 0 then []
    else UpdateCustomerStatuses(customers[..|customers| - 1], loans)
           + [DeriveCustomer(customers[|customers| - 1], loans)]
  }

  /** The action `updateLoanStatuses` dispatches: the recomputed collections, repayments as they are. */
  function RecomputeAction(s: CustomerState, today: Day): CustomerAction {
    var loans := UpdateLoanStatuses(s.loans, s.repayments, today);
    FetchDataSuccess(UpdateCustomerStatuses(s.customers, loans), loans, s.repayments)
  }

  /** The store after `updateLoanStatuses` (run synchronously). */
  function Recompute(s: CustomerState, today: Day): (r: CustomerState)
    ensures |r.loans| == |s.loans| && |r.customers| == |s.customers|
    ensures r.repayments == s.repayments
    ensures forall i :: 0 <= i < |s.loans| ==> r.loans[i] == DeriveLoan(s.loans[i], s.repayments, today)
    ensures forall i :: 0 <= i < |s.customers| ==> r.customers[i] == DeriveCustomer(s.customers[i], r.loans)
    ensures !r.isLoading && r.error == None
  {
    CustomerReducer(s, RecomputeAction(s, today))
  }

  // ----- Properties of the recomputation -----

  /** A recomputed loan is a fixpoint: the derivation reads only the id, the amount and the due date. */
  lemma DeriveLoanIdempotent(loan: Loan, repayments: seq<Repayment>, today: Day)
    ensures DeriveLoan(DeriveLoan(loan, repayments, today), repayments, today)
         == DeriveLoan(loan, repayments, today)
  {
  }

  /** A recomputed customer is a fixpoint: the derivation reads only the id and the loans. */
  lemma DeriveCustomerIdempotent(c: Customer, loans: seq<Loan>)
    ensures DeriveCustomer(DeriveCustomer(c, loans), loans) == DeriveCustomer(c, loans)
  {
  }

  /** Running the recomputation twice with no mutation in between equals running it once. */
  lemma RecomputeIdempotent(s: CustomerState, today: Day)
    ensures Recompute(Recompute(s, today), today) == Recompute(s, today)
  {
    var once := Recompute(s, today);
    var twice := Recompute(once, today);
    assert twice.loans == once.loans by {
      forall i | 0 <= i < |once.loans| ensures twice.loans[i] == once.loans[i] {
        DeriveLoanIdempotent(s.loans[i], s.repayments, today);
      }
    }
    assert twice.customers == once.customers by {
      forall i | 0 <= i < |once.customers| ensures twice.customers[i] == once.customers[i] {
        DeriveCustomerIdempotent(s.customers[i], once.loans);
      }
    }
  }

  /** A customer owning no loan gets 0 outstanding, no next due date and `up-to-date`. */
  lemma CustomerWithoutLoans(c: Customer, loans: seq<Loan>)
    requires forall l :: l in loans ==> l.customerId != c.id
    ensures DeriveCustomer(c, loans).totalOutstanding == 0
    ensures DeriveCustomer(c, loans).nextDueDate == None
    ensures DeriveCustomer(c, loans).status == UpToDate
  {
    GetCustomerLoansNone(loans, c.id);
  }

  /** After recomputation every loan's remaining amount and every customer's total are non-negative. */
  lemma RecomputedAmountsNonNegative(s: CustomerState, today: Day)
    ensures forall l :: l in Recompute(s, today).loans ==> l.remainingAmount >= 0
    ensures forall c :: c in Recompute(s, today).customers ==> c.totalOutstanding >= 0
  {
    var r := Recompute(s, today);
    DerivedLoansNonNegative(s.loans, s.repayments, today, r.loans);
    DerivedCustomersNonNegative(s.customers, r.loans, r.customers);
  }

  lemma DerivedLoansNonNegative(loans: seq<Loan>, repayments: seq<Repayment>, today: Day, derived: seq<Loan>)
    requires |derived| == |loans|
    requires forall i :: 0 <= i < |loans| ==> derived[i] == DeriveLoan(loans[i], repayments, today)
    ensures forall l :: l in derived ==> l.remainingAmount >= 0
  {
    forall l | l in derived ensures l.remainingAmount >= 0 {
      var i :| 0 <= i < |derived| && derived[i] == l;
      assert l == DeriveLoan(loans[i], repayments, today);
    }
  }

  lemma DerivedCustomersNonNegative(customers: seq<Customer>, loans: seq<Loan>, derived: seq<Customer>)
    requires |derived| == |customers|
    requires forall i :: 0 <= i < |customers| ==> derived[i] == DeriveCustomer(customers[i], loans)
    requires forall l :: l in loans ==> l.remainingAmount >= 0
    ensures forall c :: c in derived ==> c.totalOutstanding >= 0
  {
    forall c | c in derived ensures c.totalOutstanding >= 0 {
      var i :| 0 <= i < |derived| && derived[i] == c;
      assert c == DeriveCustomer(customers[i], loans);
      SumRemainingNonNegative(GetCustomerLoans(loans, customers[i].id));
    }
  }

  /** A loan's stored remaining amount agrees with the repayments recorded against its id. */
  ghost predicate RemainingIsCurrent(loan: Loan, repayments: seq<Repayment>) {
    loan.remainingAmount == Max(0, loan.amount - TotalRepaid(repayments, loan.id))
  }

  /**
   * Recording a repayment of at most a loan's current remaining amount against it lowers that
   * remaining amount by exactly the repayment, and the loan becomes `paid` exactly when the
   * repayment settles it.
   */
  lemma RepaymentReducesRemaining(s: CustomerState, k: nat, p: Repayment, today: Day)
    requires k < |s.loans| && RemainingIsCurrent(s.loans[k], s.repayments)
    requires p.loanId == s.loans[k].id
    requires 0 <= p.amount <= s.loans[k].remainingAmount
    ensures k < |Recompute(CustomerReducer(s, AddRepayment(p)), today).loans|
    ensures Recompute(CustomerReducer(s, AddRepayment(p)), today).loans[k].remainingAmount
         == s.loans[k].remainingAmount - p.amount
    ensures Recompute(CustomerReducer(s, AddRepayment(p)), today).loans[k].status == Paid
        <==> p.amount == s.loans[k].remainingAmount
  {
    TotalRepaidAppend(s.repayments, p, s.loans[k].id);
  }

  /** A repayment against one loan id leaves the derived fields of every loan with another id as they were. */
  lemma RepaymentLeavesOtherLoans(s: CustomerState, k: nat, p: Repayment, today: Day)
    requires k < |s.loans| && p.loanId != s.loans[k].id
    ensures k < |Recompute(CustomerReducer(s, AddRepayment(p)), today).loans|
    ensures Recompute(CustomerReducer(s, AddRepayment(p)), today).loans[k]
         == Recompute(s, today).loans[k]
  {
    TotalRepaidAppend(s.repayments, p, s.loans[k].id);
  }
}
