/**
 * The ledger's store: three append-only collections changed by a reducer, the records the
 * add operations build, and the read accessors over the collections.
 */
module CustomerStore {
  import opened Common
  import opened Types

  datatype CustomerState = CustomerState(
    customers: seq<Customer>,
    loans: seq<Loan>,
    repayments: seq<Repayment>,
    isLoading: bool,
    error: Option<string>)

  const InitialState := CustomerState([], [], [], false, None)

  /** `UnknownAction` stands for an action object of any other type. */
  datatype CustomerAction =
    | FetchDataStart
    | FetchDataSuccess(newCustomers: seq<Customer>, newLoans: seq<Loan>, newRepayments: seq<Repayment>)
    | FetchDataFailure(message: string)
    | AddCustomer(customer: Customer)
    | AddLoan(loan: Loan)
    | AddRepayment(repayment: Repayment)
    | UnknownAction

  /** `after` is `before` with exactly one element, `x`, appended at the end. */
  ghost predicate AppendedOne<T>(before: seq<T>, after: seq<T>, x: T) {
    |after| == |before| + 1 && after[..|before|] == before && after[|before|] == x
  }

  function CustomerReducer(s: CustomerState, a: CustomerAction): (r: CustomerState)
    ensures a.FetchDataStart? ==>
      r.isLoading && r.error == None
      && r.customers == s.customers && r.loans == s.loans && r.repayments == s.repayments
    ensures a.FetchDataSuccess? ==>
      !r.isLoading && r.error == None
      && r.customers == a.newCustomers && r.loans == a.newLoans && r.repayments == a.newRepayments
    ensures a.FetchDataFailure? ==>
      !r.isLoading && r.error == Some(a.message)
      && r.customers == s.customers && r.loans == s.loans && r.repayments == s.repayments
    ensures a.AddCustomer? ==>
      AppendedOne(s.customers, r.customers, a.customer)
      && r.loans == s.loans && r.repayments == s.repayments
      && r.isLoading == s.isLoading && r.error == s.error
    ensures a.AddLoan? ==>
      AppendedOne(s.loans, r.loans, a.loan)
      && r.customers == s.customers && r.repayments == s.repayments
      && r.isLoading == s.isLoading && r.error == s.error
    ensures a.AddRepayment? ==>
      AppendedOne(s.repayments, r.repayments, a.repayment)
      && r.customers == s.customers && r.loans == s.loans
      && r.isLoading == s.isLoading && r.error == s.error
    ensures a.UnknownAction? ==> r == s
  {
    match a
    case FetchDataStart => s.(isLoading := true, error := None)
    case FetchDataSuccess(cs, ls, rs) =>
      s.(isLoading := false, customers := cs, loans := ls, repayments := rs, error := None)
    case FetchDataFailure(msg) => s.(isLoading := false, error := Some(msg))
    case AddCustomer(c) => s.(customers := s.customers + [c])
    case AddLoan(l) => s.(loans := s.loans + [l])
    case AddRepayment(p) => s.(repayments := s.repayments + [p])
    case UnknownAction => s
  }

  // ----- Records built by the add operations -----

  function NewCustomer(freshId: string, data: CustomerFormData, today: Day): (c: Customer)
    ensures c.id == freshId && c.createdAt == today
    ensures c.name == data.name && c.phone == data.phone && c.address == data.address
    ensures c.totalOutstanding == 0 && c.nextDueDate == None && c.status == UpToDate
  {
    Customer(freshId, data.name, data.phone, data.address, today, 0, None, UpToDate)
  }

  function NewLoan(freshId: string, customerId: string, data: LoanFormData, today: Day): (l: Loan)
    ensures l.id == freshId && l.customerId == customerId && l.createdAt == today
    ensures l.description == data.description && l.amount == data.amount && l.dueDate == data.dueDate
    ensures l.remainingAmount == l.amount && l.status == Unpaid
  {
    Loan(freshId, customerId, data.description, data.amount, data.dueDate, today, Unpaid, data.amount)
  }

  /** `data.notes || ''`: an absent or empty note is stored as the empty string. */
  function NewRepayment(freshId: string, customerId: string, data: RepaymentFormData, today: Day): (p: Repayment)
    ensures p.id == freshId && p.loanId == data.loanId && p.customerId == customerId
    ensures p.amount == data.amount && p.date == today
    ensures data.notes.None? ==> p.notes == ""
    ensures data.notes.Some? ==> p.notes == data.notes.value
  {
    Repayment(freshId, data.loanId, customerId, data.amount, today,
              if data.notes.Some? then data.notes.value else "")
  }

  // ----- Read accessors -----

  /** `customers.find(c => c.id === id)`: the first customer with that id. */
  function GetCustomerById(customers: seq<Customer>, id: string): (r: Option<Customer>)
    ensures r.None? <==> forall c :: c in customers ==> c.id != id
    ensures r.Some? ==> exists k :: 0 <= k < |customers| && customers[k] == r.value
                          && r.value.id == id
                          && forall j :: 0 <= j < k ==> customers[j].id != id
  {
    if |customers| == 0 then None
    else if customers[0].id == id then Some(customers[0])
    else
      var r := GetCustomerById(customers[1..], id);
      if r.Some? then
        ghost var k :| 0 <= k < |customers[1..]| && customers[1..][k] == r.value
                       && forall j :: 0 <= j < k ==> customers[1..][j].id != id;
        assert customers[k + 1] == r.value;
        r
      else r
  }

  /** The loans whose `customerId` is the given id, in insertion order. */
  function GetCustomerLoans(loans: seq<Loan>, customerId: string): (r: seq<Loan>)
    ensures forall l :: l in r <==> l in loans && l.customerId == customerId
    ensures |r| <= |loans|
  {
    if |loans| == 0 then []
    else
      var last := loans[|loans| - 1];
      GetCustomerLoans(loans[..|loans| - 1], customerId)
        + (if last.customerId == customerId then [last] else [])
  }

  /** No loan of the customer: the accessor returns the empty list. */
  lemma {:induction false} GetCustomerLoansNone(loans: seq<Loan>, customerId: string)
    requires forall l :: l in loans ==> l.customerId != customerId
    ensures GetCustomerLoans(loans, customerId) == []
  {
    if |loans| > 0 {
      var init := loans[..|loans| - 1];
      assert loans[|loans| - 1] in loans;
      assert forall l :: l in init ==> l in loans;
      GetCustomerLoansNone(init, customerId);
    }
  }

  /** The repayments whose `customerId` is the given id, in insertion order. */
  function GetCustomerRepayments(repayments: seq<Repayment>, customerId: string): (r: seq<Repayment>)
    ensures forall p :: p in r <==> p in repayments && p.customerId == customerId
    ensures |r| <= |repayments|
  {
    if |repayments| == 0 then []
    else
      var last := repayments[|repayments| - 1];
      GetCustomerRepayments(repayments[..|repayments| - 1], customerId)
        + (if last.customerId == customerId then [last] else [])
  }

  /** The repayments whose `loanId` is the given id, in insertion order. */
  function GetLoanRepayments(repayments: seq<Repayment>, loanId: string): (r: seq<Repayment>)
    ensures forall p :: p in r <==> p in repayments && p.loanId == loanId
    ensures |r| <= |repayments|
  {
    if |repayments| == 0 then []
    else
      var last := repayments[|repayments| - 1];
      GetLoanRepayments(repayments[..|repayments| - 1], loanId)
        + (if last.loanId == loanId then [last] else [])
  }

  /** Filtering distributes over concatenation: order is preserved and nothing is invented. */
  lemma {:induction false} GetLoanRepaymentsConcat(a: seq<Repayment>, b: seq<Repayment>, loanId: string)
    ensures GetLoanRepayments(a + b, loanId) == GetLoanRepayments(a, loanId) + GetLoanRepayments(b, loanId)
    decreases |b|
  {
    if |b| == 0 {
      assert a + b == a;
    } else {
      var b', x := b[..|b| - 1], b[|b| - 1];
      SplitLast(a, b);
      GetLoanRepaymentsSnoc(a + b', x, loanId);
      GetLoanRepaymentsConcat(a, b', loanId);
      ConcatAssoc(GetLoanRepayments(a, loanId), GetLoanRepayments(b', loanId),
                  if x.loanId == loanId then [x] else []);
    }
  }

  /** Appending one record appends it to the result exactly when it matches. */
  lemma GetLoanRepaymentsSnoc(s: seq<Repayment>, x: Repayment, loanId: string)
    ensures GetLoanRepayments(s + [x], loanId)
         == GetLoanRepayments(s, loanId) + (if x.loanId == loanId then [x] else [])
  {
    DropSnoc(s, x);
  }

  lemma {:induction false} GetCustomerLoansConcat(a: seq<Loan>, b: seq<Loan>, customerId: string)
    ensures GetCustomerLoans(a + b, customerId) == GetCustomerLoans(a, customerId) + GetCustomerLoans(b, customerId)
    decreases |b|
  {
    if |b| == 0 {
      assert a + b == a;
    } else {
      var b', x := b[..|b| - 1], b[|b| - 1];
      SplitLast(a, b);
      GetCustomerLoansSnoc(a + b', x, customerId);
      GetCustomerLoansConcat(a, b', customerId);
      ConcatAssoc(GetCustomerLoans(a, customerId), GetCustomerLoans(b', customerId),
                  if x.customerId == customerId then [x] else []);
    }
  }

  /** Appending one record appends it to the result exactly when it matches. */
  lemma GetCustomerLoansSnoc(s: seq<Loan>, x: Loan, customerId: string)
    ensures GetCustomerLoans(s + [x], customerId)
         == GetCustomerLoans(s, customerId) + (if x.customerId == customerId then [x] else [])
  {
    DropSnoc(s, x);
  }

  lemma {:induction false} GetCustomerRepaymentsConcat(a: seq<Repayment>, b: seq<Repayment>, customerId: string)
    ensures GetCustomerRepayments(a + b, customerId)
         == GetCustomerRepayments(a, customerId) + GetCustomerRepayments(b, customerId)
    decreases |b|
  {
    if |b| == 0 {
      assert a + b == a;
    } else {
      var b', x := b[..|b| - 1], b[|b| - 1];
      SplitLast(a, b);
      GetCustomerRepaymentsSnoc(a + b', x, customerId);
      GetCustomerRepaymentsConcat(a, b', customerId);
      ConcatAssoc(GetCustomerRepayments(a, customerId), GetCustomerRepayments(b', customerId),
                  if x.customerId == customerId then [x] else []);
    }
  }

  /** Appending one record appends it to the result exactly when it matches. */
  lemma GetCustomerRepaymentsSnoc(s: seq<Repayment>, x: Repayment, customerId: string)
    ensures GetCustomerRepayments(s + [x], customerId)
         == GetCustomerRepayments(s, customerId) + (if x.customerId == customerId then [x] else [])
  {
    DropSnoc(s, x);
  }
}
