# CrediKhaata ledger core in Dafny

CrediKhaata is a loan ledger for shopkeepers. A shopkeeper records customers, gives them loans
with a due date, and records repayments against those loans. The ledger then derives the rest:

- each loan's remaining amount and status (`paid`, `partially-paid`, `unpaid`, `overdue`);
- each customer's total outstanding amount, next due date and status (`up-to-date`, `overdue`).

This project models the core of that application:

- the customer store (`customerReducer`, record construction, the accessors) together with the
  status derivation (`updateLoanStatuses`, `updateCustomerStatuses`);
- the provider that appends records and then recomputes;
- the toast queue;
- the session (the auth reducer and the mock `login`/`register`/`logout`);
- the submit gates and field rules of the add-customer, add-loan, record-repayment, login and
  register pages;
- the dashboard's search, sort, sort toggle and summary figures.

Modelling choices:

- Money is `int`.
- Dates are integer day numbers (`Day`). The current date is a parameter (`today`).
- Fresh ids are parameters (`freshId`, `toastId`).
- Reducers are pure functions over datatypes.
- The objects whose state the source updates are classes: `Ledger`, `ToastQueue`,
  `AuthSession`, `SortControl` and `RepaymentPage`. `Ledger`, `ToastQueue`, `AuthSession` and
  `SortControl` each have a `State()` function and methods ensuring that the new `State()` is the
  reducer (or, for `SortControl`, the toggle) applied to the old one. `RepaymentPage` holds the
  routed customer id and the submitting flag; its `Submit` states the new `Ledger` state and
  the new toast list.
- A `minLength` rule compares the JavaScript `length` of the value, which counts UTF-16 code
  units: `Utf16Length` counts two for each character outside the Basic Multilingual Plane.
- Collections are sequences. They are folded from the end, matching the left fold of `reduce`.

Modules, one per source file (the store's file is split in three):

| module | file | models |
|---|---|---|
| `Common`, `Types` | common.dfy, types.dfy | option type, character classes, the record types |
| `CustomerStore` | customer_store.dfy | store state, reducer, record construction, accessors |
| `StatusEngine` | status_engine.dfy | loan and customer derivation, recompute, its properties |
| `LedgerProvider` | ledger_provider.dfy | the provider as the class `Ledger`; the deferred recompute as written |
| `ToastContext` | toast_context.dfy | toast reducer and the class `ToastQueue` |
| `AuthContext` | auth_context.dfy | auth reducer, mock decisions, the class `AuthSession` |
| `FormRules` | form_rules.dfy | the `required`/`minLength` rule and the e-mail pattern |
| `AddCustomerPage`, `AddLoanPage`, `RecordRepaymentPage`, `LoginPage`, `RegisterPage` | one file each | field rules and submit handlers |
| `Dashboard` | dashboard.dfy | search, sort, toggle, counts and total |
| `Scenarios` | scenarios.dfy | worked examples on concrete records |

Form-library semantics are modelled as follows:

- `required` fails on the empty string.
- `minLength` and `pattern` are checked only on a non-empty value.
- The first failing rule's message is reported.
- A number field is `Option<int>`, where `None` stands for a blank field.
- `onSubmit` runs only when every rule passes.

## Model

| member | source | states |
|---|---|---|
| CustomerStore.CustomerReducer | src/contexts/CustomerContext.tsx:51-75 | FETCH_DATA_START sets loading and clears the error. FETCH_DATA_SUCCESS replaces all three collections and clears loading and error. FETCH_DATA_FAILURE stores the message. Each ADD_* appends exactly one record at the end of its collection and leaves the other collections unchanged. An unknown action returns the state unchanged |
| CustomerStore.NewCustomer | src/contexts/CustomerContext.tsx:195-204 | a new customer keeps the form's name, phone and address and starts with 0 outstanding, no next due date and `up-to-date` |
| CustomerStore.NewLoan | src/contexts/CustomerContext.tsx:219-228 | a new loan belongs to the given customer, has remaining amount equal to its amount and is `unpaid` |
| CustomerStore.NewRepayment | src/contexts/CustomerContext.tsx:247-254 | a repayment carries the form's loan id and amount; absent notes become "" |
| CustomerStore.GetCustomerById | src/contexts/CustomerContext.tsx:271-273 | returns none iff no customer has the id; otherwise the first customer with that id |
| CustomerStore.GetCustomerLoans | src/contexts/CustomerContext.tsx:276-278 | a loan is in the result iff it is in the store and has the customer's id |
| CustomerStore.GetCustomerLoansNone | src/contexts/CustomerContext.tsx:277 | a customer with no loans gets the empty list |
| CustomerStore.GetCustomerLoansConcat | src/contexts/CustomerContext.tsx:277 | the loan filter distributes over concatenation, so it keeps relative order |
| CustomerStore.GetCustomerRepayments | src/contexts/CustomerContext.tsx:281-283 | a repayment is in the result iff it is stored and has the customer's id |
| CustomerStore.GetCustomerRepaymentsConcat | src/contexts/CustomerContext.tsx:282 | the customer filter keeps relative order |
| CustomerStore.GetLoanRepayments | src/contexts/CustomerContext.tsx:286-288 | a repayment is in the result iff it is stored and has the loan's id |
| CustomerStore.GetLoanRepaymentsConcat | src/contexts/CustomerContext.tsx:287 | the loan-id filter keeps relative order |
| StatusEngine.SumAmountsConcat | src/contexts/CustomerContext.tsx:132 | the repayment sum of a concatenation is the sum of the parts |
| StatusEngine.SumAmounts | src/contexts/CustomerContext.tsx:132 | the `reduce` sum of repayment amounts, left to right; additivity is SumAmountsConcat |
| StatusEngine.TotalRepaid | src/contexts/CustomerContext.tsx:131-132 | the sum over exactly the loan's repayments; how an append changes it is TotalRepaidAppend |
| StatusEngine.TotalRepaidAppend | src/contexts/CustomerContext.tsx:131-132 | a new repayment adds its amount to its own loan's total repaid and leaves every other loan's total unchanged |
| StatusEngine.DeriveLoan | src/contexts/CustomerContext.tsx:129-153 | remaining amount = max(0, amount − total repaid) ≥ 0; `paid` iff amount − total repaid ≤ 0 iff remaining is 0; `overdue` iff remaining > 0 and due date strictly before today; otherwise `partially-paid` iff remaining < amount, else `unpaid`; every other field is kept |
| StatusEngine.UpdateLoanStatuses | src/contexts/CustomerContext.tsx:129-153 | same length and order, each loan derived |
| StatusEngine.SumRemainingNonNegative | src/contexts/CustomerContext.tsx:174 | loans with non-negative remaining amounts sum to a non-negative total |
| StatusEngine.SumRemaining | src/contexts/CustomerContext.tsx:174 | the `reduce` sum of remaining amounts; its sign is SumRemainingNonNegative |
| StatusEngine.HasOverdueLoan | src/contexts/CustomerContext.tsx:171 | `some` loan is overdue; DeriveCustomer states the resulting status |
| StatusEngine.EarliestDueDate | src/contexts/CustomerContext.tsx:177-181 | none iff no loan has a positive remaining amount; otherwise the least due date among such loans, attained by one of them |
| StatusEngine.DeriveCustomer | src/contexts/CustomerContext.tsx:166-189 | total outstanding is the remaining sum over exactly the customer's loans; `overdue` iff one of them is overdue; the next due date is the earliest due date among the customer's open loans; the profile fields are kept |
| StatusEngine.UpdateCustomerStatuses | src/contexts/CustomerContext.tsx:167-189 | same length and order, each customer derived |
| StatusEngine.RecomputeAction | src/contexts/CustomerContext.tsx:155-162 | the FETCH_DATA_SUCCESS payload: derived customers, derived loans and the repayments as they are; Recompute states its effect |
| StatusEngine.Recompute | src/contexts/CustomerContext.tsx:127-163 | the number and order of loans and customers are kept, the repayments are unchanged, each loan and customer is derived, and loading and error end cleared |
| StatusEngine.DeriveLoanIdempotent | src/contexts/CustomerContext.tsx:131-151 | deriving a derived loan again changes nothing |
| StatusEngine.DeriveCustomerIdempotent | src/contexts/CustomerContext.tsx:168-187 | deriving a derived customer again changes nothing |
| StatusEngine.RecomputeIdempotent | src/contexts/CustomerContext.tsx:127-190 | recomputing twice equals recomputing once |
| StatusEngine.CustomerWithoutLoans | src/contexts/CustomerContext.tsx:168-187 | a customer without loans gets 0 outstanding, no next due date and `up-to-date` |
| StatusEngine.RecomputedAmountsNonNegative | src/contexts/CustomerContext.tsx:151-174 | after a recompute every remaining amount and every total outstanding is ≥ 0 |
| StatusEngine.RepaymentReducesRemaining | src/contexts/CustomerContext.tsx:131-151 | for a loan whose remaining amount is current, a repayment of at most that amount lowers it by exactly the repayment, and the loan becomes `paid` iff the repayment equals what remained |
| StatusEngine.RepaymentLeavesOtherLoans | src/contexts/CustomerContext.tsx:129-153 | a repayment against one loan leaves every other loan's derived state unchanged |
| ToastContext.WithoutToast | src/contexts/ToastContext.tsx:41 | keeps exactly the toasts whose id differs from the given one, never more than before |
| ToastContext.ToastReducer | src/contexts/ToastContext.tsx:31-46 | ADD_TOAST appends one toast with the given type and message and the fresh id, keeping the existing ones; REMOVE_TOAST drops every toast with the id; an unknown action changes nothing |
| ToastContext.WithoutToastConcat | src/contexts/ToastContext.tsx:41 | removal keeps the remaining toasts in order |
| ToastContext.RemoveAbsentIsIdentity | src/contexts/ToastContext.tsx:41 | removing an id that is not present leaves the list unchanged |
| ToastContext.AddThenRemoveRestores | src/contexts/ToastContext.tsx:33-42 | with a fresh id, adding and then removing that id restores the list |
| ToastContext.ToastQueue.constructor | src/contexts/ToastContext.tsx:11-13 | the queue starts empty |
| ToastContext.ToastQueue.ShowToast | src/contexts/ToastContext.tsx:53-55 | the new state is ADD_TOAST applied to the old |
| ToastContext.ToastQueue.RemoveToast | src/contexts/ToastContext.tsx:58-60 | the new state is REMOVE_TOAST applied to the old |
| LedgerProvider.Ledger.constructor | src/contexts/CustomerContext.tsx:18-24 | the ledger starts empty, not loading, without error |
| LedgerProvider.Ledger.Dispatch | src/contexts/CustomerContext.tsx:79 | the new state is the reducer applied to the old |
| LedgerProvider.Ledger.UpdateLoanStatuses | src/contexts/CustomerContext.tsx:127-163 | the new state is the recompute of the old |
| LedgerProvider.Ledger.AddCustomer | src/contexts/CustomerContext.tsx:193-214 | returns the new customer record, appends it, and shows "Customer added successfully!" |
| LedgerProvider.Ledger.AddLoan | src/contexts/CustomerContext.tsx:217-242 | appends the loan as given (no store-level check), then recomputes, and shows "Loan added successfully!" |
| LedgerProvider.Ledger.AddRepayment | src/contexts/CustomerContext.tsx:245-268 | appends the repayment as given (no clamp), then recomputes, and shows "Repayment recorded successfully!" |
| LedgerProvider.AddLoanKeepsNewLoan | src/contexts/CustomerContext.tsx:230-233 | after the recompute the new loan is the last loan, derived against the existing repayments |
| LedgerProvider.AddRepaymentKeepsNewRepayment | src/contexts/CustomerContext.tsx:256-259 | after the recompute the repayments are the old ones plus the new one |
| LedgerProvider.DeferredRecomputeDropsRepayment | src/contexts/CustomerContext.tsx:155-162 | with the deferred recompute as written, the recorded repayment is gone afterwards |
| LedgerProvider.DeferredAddRepaymentAsWritten | src/contexts/CustomerContext.tsx:256-259 | ADD_REPAYMENT followed by the recompute payload built from the state before it, as the deferred callback does; DeferredRecomputeDropsRepayment states the outcome |
| Common.Utf16Length | src/pages/AddLoan.tsx:74-80 | the JavaScript `length` of a string: between its number of characters and twice that, and equal to it iff every character is in the Basic Multilingual Plane |
| FormRules.TextRules | src/pages/AddLoan.tsx:74-80 | no error iff the value's UTF-16 length is at least the minimum; an empty value reports the required message, a short non-empty one the length message |
| FormRules.PasswordError | src/pages/Login.tsx:81-87 | no error iff the password's UTF-16 length is at least 6; an empty password reports "Password is required" |
| FormRules.MatchesEmailIsPattern | src/pages/Login.tsx:67-70 | the scanning matcher accepts exactly the pattern's language: a non-empty `[A-Z0-9._%+-]` part, `@`, a non-empty `[A-Z0-9.-]` part, `.`, and two or more letters at the end, case-insensitively |
| FormRules.MatchesEmail | src/pages/Login.tsx:67-70 | the scanning matcher: one first `@` after a non-empty local part, a domain whose last `.` leaves at least two letters; MatchesEmailIsPattern proves it equal to the pattern |
| FormRules.EmailPatternShape | src/pages/Register.tsx:82-88 | an accepted e-mail has exactly one `@` and ends with `.` followed by at least two letters |
| FormRules.EmailError | src/pages/Login.tsx:65-71 | no error iff the e-mail matches; an empty e-mail reports "Email is required", a malformed one "Invalid email address" |
| AuthContext.AuthReducer | src/contexts/AuthContext.tsx:34-65 | *_START sets loading and clears the error, keeping user and flag. *_SUCCESS authenticates with the payload user and clears loading and error. *_FAILURE unauthenticates, stores the message and keeps the user. LOGOUT clears user and flag and keeps loading and error. An unknown action changes nothing |
| AuthContext.NameFromEmail | src/contexts/AuthContext.tsx:105 | the name is the prefix before the first `@`, or the whole e-mail when there is none |
| AuthContext.NameIsLocalPart | src/contexts/AuthContext.tsx:105 | when the first `@` is at position k, the name is exactly the first k characters |
| AuthContext.LoginDecision | src/contexts/AuthContext.tsx:101-113 | accepted iff e-mail and password are non-empty, with user id "1" and the e-mail's name; else "Invalid credentials" |
| AuthContext.RegisterDecision | src/contexts/AuthContext.tsx:130-141 | accepted iff e-mail, password and name are non-empty, keeping the name verbatim; else "Please fill all required fields" |
| AuthContext.LoginTransition | src/contexts/AuthContext.tsx:93-119 | after `login`, authenticated iff both fields are non-empty, never loading; the error is cleared on success and is the failure message otherwise |
| AuthContext.RegisterTransition | src/contexts/AuthContext.tsx:122-148 | after `register`, authenticated iff all three fields are non-empty, never loading, with the registered user |
| AuthContext.AuthSession.constructor | src/contexts/AuthContext.tsx:6-11 | starts unauthenticated, without a user, loading |
| AuthContext.AuthSession.Dispatch | src/contexts/AuthContext.tsx:69 | the new state is the reducer applied to the old |
| AuthContext.AuthSession.Login | src/contexts/AuthContext.tsx:93-119 | the new state is the login transition; one toast is shown: success, or an error toast carrying the message |
| AuthContext.AuthSession.Register | src/contexts/AuthContext.tsx:122-148 | the new state is the register transition; one success or error toast |
| AuthContext.AuthSession.Logout | src/contexts/AuthContext.tsx:151-155 | the new state is LOGOUT applied to the old; an info toast "You have been logged out" |
| AddCustomerPage.MatchesPhoneIsPattern | src/pages/AddCustomer.tsx:71 | the matcher accepts exactly an optional single leading `+` followed by 10 to 15 ASCII digits |
| AddCustomerPage.MatchesPhone | src/pages/AddCustomer.tsx:71 | drops one leading `+` and requires 10 to 15 ASCII digits; MatchesPhoneIsPattern proves it equal to the pattern |
| AddCustomerPage.PhoneShape | src/pages/AddCustomer.tsx:71 | an accepted phone has 10 to 16 characters and a `+` only at index 0 |
| AddCustomerPage.NameError | src/pages/AddCustomer.tsx:53-58 | no error iff the name's UTF-16 length is at least 2; an empty name reports "Customer name is required" |
| AddCustomerPage.AstralNameIsLongEnough | src/pages/AddCustomer.tsx:53-58 | a single character outside the Basic Multilingual Plane has length 2, so it passes the 2-character minimum |
| AddCustomerPage.PhoneError | src/pages/AddCustomer.tsx:68-74 | no error iff the phone matches the pattern; an empty phone reports "Phone number is required" |
| AddCustomerPage.AddressError | src/pages/AddCustomer.tsx:83-89 | no error iff the address's UTF-16 length is at least 5; an empty address reports "Address is required" |
| AddCustomerPage.SubmitCustomer | src/pages/AddCustomer.tsx:22-31 | the customer is added iff the form is valid, as the new record appended to the ledger, and "Customer added successfully!" is appended to the toasts; an invalid form changes neither ledger nor toasts |
| AddLoanPage.DefaultDueDate | src/pages/AddLoan.tsx:32 | the default due date is seven days after the current date |
| AddLoanPage.DescriptionError | src/pages/AddLoan.tsx:74-80 | no error iff the description's UTF-16 length is at least 3; an empty description reports "Description is required" |
| AddLoanPage.LoanAmountError | src/pages/AddLoan.tsx:90-97 | no error iff an amount is given and it is ≥ 1; a blank amount reports "Amount is required" |
| AddLoanPage.DueDateError | src/pages/AddLoan.tsx:106-108 | no error iff a due date is given |
| AddLoanPage.SubmitLoan | src/pages/AddLoan.tsx:18-45 | an unknown customer is reported and nothing is added; a loan is added (amount ≥ 1, then recomputed) iff the customer exists and the form is valid, its owner is a customer in the store, and "Loan added successfully!" is appended to the toasts; otherwise ledger and toasts are unchanged |
| RecordRepaymentPage.NotPaid | src/pages/RecordRepayment.tsx:29-31 | keeps exactly the loans that are not `paid` |
| RecordRepaymentPage.OfferedLoans | src/pages/RecordRepayment.tsx:29-31 | offers exactly this customer's loans that are not `paid` |
| RecordRepaymentPage.SelectedLoan | src/pages/RecordRepayment.tsx:60 | none iff no offered loan has the id; otherwise the first offered loan with that id |
| RecordRepaymentPage.ClampAmount | src/pages/RecordRepayment.tsx:67-69 | an amount above the selected loan's remaining amount becomes that amount; otherwise, or without a selection, it is unchanged |
| RecordRepaymentPage.LoanIdError | src/pages/RecordRepayment.tsx:122-124 | no error iff a loan is chosen |
| RecordRepaymentPage.RepaymentAmountError | src/pages/RecordRepayment.tsx:145-156 | no error iff an amount ≥ 1 is given that does not exceed the selected loan's remaining amount (unbounded without a selection) |
| RecordRepaymentPage.ValidFormIsNotClamped | src/pages/RecordRepayment.tsx:67-69 | for a form that passes the rules the cap leaves the amount unchanged |
| RecordRepaymentPage.CappedRepaymentSettles | src/pages/RecordRepayment.tsx:67-71 | with a current remaining amount, recording the capped amount brings the loan to exactly 0 and `paid` when at least the remainder was entered, and lowers it by the amount otherwise |
| RecordRepaymentPage.RepaymentPage.constructor | src/pages/RecordRepayment.tsx:13-17 | the page is for the routed customer and is not submitting |
| RecordRepaymentPage.RepaymentPage.Submit | src/pages/RecordRepayment.tsx:20-77 | an unknown customer is reported with no change; no offered loan means no form; a repayment is recorded iff the customer exists, a loan is offered and the form is valid; it carries the amount entered (within the selected loan's remaining amount), the ledger is recomputed and "Repayment recorded successfully!" is appended to the toasts; anything else leaves ledger, toasts and the submitting flag unchanged |
| Dashboard.LowerChar | src/pages/Dashboard.tsx:22 | maps ASCII capitals to lower case and keeps every other character |
| Dashboard.Lower | src/pages/Dashboard.tsx:22 | lowers each character, keeping the length |
| Dashboard.Includes | src/pages/Dashboard.tsx:22-23 | true iff the term occurs in the text at some position |
| Dashboard.IncludesEmpty | src/pages/Dashboard.tsx:22-23 | every text includes the empty term |
| Dashboard.FilterCustomers | src/pages/Dashboard.tsx:20-24 | keeps a customer iff the lowered name contains the lowered term or the phone contains the term |
| Dashboard.MatchesSearch | src/pages/Dashboard.tsx:22-23 | the lowered name includes the lowered term, or the phone includes the term as typed |
| Dashboard.FilterCustomersConcat | src/pages/Dashboard.tsx:20-24 | the search keeps relative order |
| Dashboard.EmptySearchKeepsAll | src/pages/Dashboard.tsx:20-24 | an empty term keeps every customer, in order |
| Dashboard.LocaleCompare | src/pages/Dashboard.tsx:30 | the name comparison returns −1, 0 or 1, and 0 iff the names are equal |
| Dashboard.LocaleCompareFlip | src/pages/Dashboard.tsx:30-31 | swapping the names negates the comparison |
| Dashboard.LocaleCompareTransitive | src/pages/Dashboard.tsx:30 | the name order is transitive |
| Dashboard.NameDescNegatesAsc | src/pages/Dashboard.tsx:28-32 | the name comparator in `desc` is the negation of the one in `asc` |
| Dashboard.DueDiff | src/pages/Dashboard.tsx:41-44 | the due-date difference, a missing date sorting after every date (`Infinity`) and two missing dates tying (`NaN` read as 0); CompareFlip and CompareTransitive state its order properties |
| Dashboard.Compare | src/pages/Dashboard.tsx:27-45 | the comparator for each option and direction; CompareFlip and CompareTransitive state its properties |
| Dashboard.CompareFlip | src/pages/Dashboard.tsx:27-45 | every comparator's sign flips when its arguments are swapped |
| Dashboard.CompareTransitive | src/pages/Dashboard.tsx:27-45 | every comparator is transitive, a missing due date counting as +∞ |
| Dashboard.Insert | src/pages/Dashboard.tsx:27-45 | inserting into a sorted list keeps it sorted and adds exactly the one customer |
| Dashboard.SortCustomers | src/pages/Dashboard.tsx:27-45 | the result is a sorted permutation of its input |
| Dashboard.StrictTransitive | src/pages/Dashboard.tsx:27-45 | strictly earlier followed by no later is strictly earlier, for every comparator |
| Dashboard.StrictSeparatesTies | src/pages/Dashboard.tsx:27-45 | a customer strictly after `a` does not tie with anything that ties with `a` |
| Dashboard.InsertKeepsTies | src/pages/Dashboard.tsx:27-45 | inserting a customer puts it after every customer it ties with: the ties of any `x` gain it at their end |
| Dashboard.SortIsStable | src/pages/Dashboard.tsx:27-45 | the sort is stable, as `Array.prototype.sort` is: for every `x`, the customers tied with `x` keep their input order |
| Dashboard.VisibleCustomers | src/pages/Dashboard.tsx:20-45 | the shown list is a sorted permutation of exactly the matching customers, and customers that tie keep their order in the store |
| Dashboard.AmountSortOrder | src/pages/Dashboard.tsx:34-38 | by amount, total outstanding is non-decreasing in `asc` and non-increasing in `desc` |
| Dashboard.DueDateAscOrder | src/pages/Dashboard.tsx:41-44 | by due date in `asc`, every customer with a date precedes every customer without one, in date order |
| Dashboard.Flip | src/pages/Dashboard.tsx:50 | flipping always changes the direction |
| Dashboard.Toggle | src/pages/Dashboard.tsx:48-55 | choosing the current option flips its direction; choosing another option selects it in `asc` |
| Dashboard.ToggleTwiceRestores | src/pages/Dashboard.tsx:48-55 | toggling the current option twice restores the sort state |
| Dashboard.ToggleAwayAndBack | src/pages/Dashboard.tsx:48-55 | leaving an option and coming back to it sorts it in `asc` |
| Dashboard.SortControl.constructor | src/pages/Dashboard.tsx:11-12 | the dashboard starts sorted by due date, ascending |
| Dashboard.SortControl.ToggleSort | src/pages/Dashboard.tsx:48-55 | the new sort state is the toggle of the old |
| Dashboard.OverdueCount | src/pages/Dashboard.tsx:63 | at most the number of customers, 0 iff no customer is overdue, and for one customer 1 iff that customer is overdue |
| Dashboard.OverdueCountConcat | src/pages/Dashboard.tsx:63 | the count of a concatenation is the sum of the counts, so with the one-customer case it is the number of overdue customers |
| Dashboard.UpToDateCount | src/pages/Dashboard.tsx:110 | at most the number of customers, 0 iff no customer is up to date, and for one customer 1 iff that customer is up to date |
| Dashboard.UpToDateCountConcat | src/pages/Dashboard.tsx:110 | the count of a concatenation is the sum of the counts, so with the one-customer case it is the number of up-to-date customers |
| Dashboard.CountsPartition | src/pages/Dashboard.tsx:63-110 | the overdue and up-to-date counts add up to the number of customers |
| Dashboard.TotalOutstanding | src/pages/Dashboard.tsx:92 | the `reduce` sum of the customers' totals; its sign is TotalOutstandingNonNegative |
| Dashboard.TotalOutstandingNonNegative | src/pages/Dashboard.tsx:92 | the shown total is ≥ 0 when every customer's total is |
| Dashboard.RecomputedTotalNonNegative | src/pages/Dashboard.tsx:92 | after a recompute the shown total outstanding is ≥ 0 |
| LoginPage.RedirectTarget | src/pages/Login.tsx:22 | the page the user came from when given and non-empty, else "/" |
| LoginPage.ValidLoginSignsIn | src/pages/Login.tsx:65-87 | a valid form always signs in, and the user's name is the e-mail's non-empty local part before its only `@` |
| LoginPage.Submit | src/pages/Login.tsx:30-39 | an invalid form stays and changes nothing; a valid one signs in, shows "Login successful!" and navigates to the redirect target |
| RegisterPage.NameError | src/pages/Register.tsx:66-72 | no error iff the name's UTF-16 length is at least 2; an empty name reports "Name is required" |
| RegisterPage.ConfirmPasswordError | src/pages/Register.tsx:114-117 | no error iff the confirmation is non-empty and equals the password |
| RegisterPage.ValidRegistrationSignsIn | src/pages/Register.tsx:66-117 | a valid form has a confirmed password of UTF-16 length at least 6 and always registers, as user "1" with the name as typed |
| RegisterPage.Submit | src/pages/Register.tsx:31-40 | an invalid form stays and changes nothing; a valid one registers, shows "Registration successful!" and navigates to "/" |
| Scenarios.CustomerWithoutLoansScenario | src/contexts/CustomerContext.tsx:166-189 | a customer with no loans: 0 outstanding, no due date, `up-to-date` |
| Scenarios.OverdueLoanScenario | src/contexts/CustomerContext.tsx:129-189 | a loan of 1000 due yesterday: 1000 remaining, `overdue`, customer `overdue` with 1000 outstanding |
| Scenarios.FullRepaymentScenario | src/contexts/CustomerContext.tsx:131-151 | a loan of 500 repaid with 500: 0 remaining, `paid` |
| Scenarios.NextDueDateScenario | src/contexts/CustomerContext.tsx:177-181 | two open loans due in 3 and 10 days: the next due date is the earlier one, and 500 is outstanding |
| Scenarios.OpenLoansAreCurrent | src/contexts/CustomerContext.tsx:129-151 | two unpaid, unrepaid loans that are not yet due come out of the status pass unchanged |
| Scenarios.TwoOpenLoans | src/contexts/CustomerContext.tsx:168-181 | the customer half of the scenario above |
| Scenarios.OverpaymentIsRefusedByTheForm | src/pages/RecordRepayment.tsx:145-156 | 400 against 300 remaining is refused with "Amount cannot exceed the remaining amount"; the cap would give 300 |

## Left out

- Persistence is not modelled: saving to and loading from `localStorage`, the JSON parsing, and the stored-session check at start-up. It is I/O and a foreign parser. Loaded collections enter only as the payload of FETCH_DATA_SUCCESS.
- Timers and effects are not modelled: `setTimeout`, React effects, and the toasts' 5-second auto-removal. They are event-loop behaviour. The corrected `Ledger` recomputes synchronously after each append. The source's deferred form is modelled once, as written, in `DeferredAddRepaymentAsWritten` (see Findings). The length-keyed effect that recomputes when the number of customers or loans changes is not modelled.
- The simulated one-second delay of `login`/`register` is not modelled. `AuthSession.Login` and `AuthSession.Register` run their start and end transitions back to back.
- Library calls become parameters or abstractions:
  - `uuidv4` is a fresh-id parameter;
  - dayjs parsing and formatting become `Day` integers and a `today` parameter;
  - `localeCompare` is code-point lexicographic order with a −1/0/1 result;
  - `toLowerCase` covers ASCII only.
- Number inputs are whole numbers. NaN, fractional amounts and `toFixed` rounding are left out.
- AddLoanPage.DefaultDueDate: the page takes the date from the UTC calendar. The gap between the UTC day and the local day is not modelled; the caller supplies the UTC day.
- Navigation is modelled only as a returned outcome (`SubmitOutcome`, `PageResult`). Routing, the 404 page and rendering are not part of this model.
- The pages' `catch` branches are not modelled. `addCustomer`, `addLoan`, `addRepayment`, `login` and `register` never throw on the modelled paths.
- Presentational components are not part of this model: cards, badges, inputs, layouts, the toast container, the customer-detail page and its display sort. PDF export (src/utils/pdfExport.ts) is not part of this model either.
- The source code decides in two places:
  - The store performs no validation, not-found check or clamping in `addLoan`/`addRepayment`. Checks happen only on the pages, and the model follows that.
  - Logging out does not clear the customer store, and the model does not clear it either.
- An over-payment on the repayment page is refused by the form's `max` rule before `onSubmit` runs, so the cap in `onSubmit` never changes a submitted amount (`ValidFormIsNotClamped`, `OverpaymentIsRefusedByTheForm`). `CappedRepaymentSettles` states what the cap does on its own.

## Findings

| source | as written | input that shows it | evidently intended | confidence | as-written member | corrected member |
|---|---|---|---|---|---|---|
| src/contexts/CustomerContext.tsx:259 | `addRepayment` schedules `setTimeout(() => updateLoanStatuses(), 0)`. The callback closes over the state of the render before ADD_REPAYMENT. It dispatches FETCH_DATA_SUCCESS with that old repayment list (lines 155-162), which overwrites the list the append produced. The same pattern is at line 233 for loans, where the length-keyed effect may or may not recompute again. | any store state `s` and any repayment `p` with a fresh id: afterwards the repayments are `s.repayments`, without `p` | the recompute reads the state after the append, so the repayment is kept and the loan's remaining amount drops | medium, not executed | LedgerProvider.DeferredRecomputeDropsRepayment | LedgerProvider.AddRepaymentKeepsNewRepayment |
