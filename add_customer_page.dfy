/** The add-customer form: its field rules and its submit handler. */
module AddCustomerPage {
  import opened Common
  import opened Types
  import opened FormRules
  import opened CustomerStore
  import opened ToastContext
  import opened LedgerProvider

  /** The language of /^\+?[0-9]{10,15}$/: an optional `+`, then 10 to 15 ASCII digits. */
  ghost predicate PhonePattern(s: string) {
    || (10 <= |s| <= 15 && AllDigits(s))
    || (11 <= |s| <= 16 && s[0] == '+' && AllDigits(s[1..]))
  }

  /** Matches the pattern by dropping one leading `+` and checking what is left. */
  predicate MatchesPhone(s: string) {
    var digits := if |s| > 0 && s[0] == '+' then s[1..] else s;
    10 <= |digits| <= 15 && AllDigits(digits)
  }

  lemma MatchesPhoneIsPattern(s: string)
    ensures MatchesPhone(s) <==> PhonePattern(s)
  {
    if |s| > 0 && s[0] == '+' {
      assert !IsAsciiDigit(s[0]);
    }
  }

  /** Any accepted phone number has 10 to 16 characters, and a `+` can only be its first. */
  lemma PhoneShape(s: string)
    requires MatchesPhone(s)
    ensures 10 <= |s| <= 16
    ensures forall i :: 0 <= i < |s| && s[i] == '+' ==> i == 0
  {
    forall i | 0 < i < |s| ensures s[i] != '+' {
      if s[0] == '+' {
        assert s[i] == s[1..][i - 1];
      }
    }
  }

  function NameError(name: string): (err: Option<string>)
    ensures err == None <==> Utf16Length(name) >= 2
    ensures name == "" ==> err == Some("Customer name is required")
  {
    TextRules(name, "Customer name is required", 2, "Name must be at least 2 characters")
  }

  /** One character outside the Basic Multilingual Plane is two code units, so it is a long enough name. */
  lemma AstralNameIsLongEnough()
    ensures |"\U{1D49C}"| == 1 && Utf16Length("\U{1D49C}") == 2
    ensures NameError("\U{1D49C}") == None
  {
    assert "\U{1D49C}"[..0] == [];
  }

  function PhoneError(phone: string): (err: Option<string>)
    ensures err == None <==> MatchesPhone(phone)
    ensures phone == "" ==> err == Some("Phone number is required")
  {
    if phone == "" then Some("Phone number is required")
    else if !MatchesPhone(phone) then Some("Please enter a valid phone number")
    else None
  }

  function AddressError(address: string): (err: Option<string>)
    ensures err == None <==> Utf16Length(address) >= 5
    ensures address == "" ==> err == Some("Address is required")
  {
    TextRules(address, "Address is required", 5, "Address must be at least 5 characters")
  }

  predicate CustomerFormValid(data: CustomerFormData) {
    NameError(data.name).None? && PhoneError(data.phone).None? && AddressError(data.address).None?
  }

  /** The form library calls `onSubmit` only with a valid form; `onSubmit` calls `addCustomer`. */
  method SubmitCustomer(ledger: Ledger, data: CustomerFormData, freshId: string, today: Day,
                        toasts: ToastQueue, toastId: string) returns (outcome: SubmitOutcome<Customer>)
    modifies ledger, toasts
    ensures outcome.Submitted? <==> CustomerFormValid(data)
    ensures outcome.Submitted? ==>
      outcome.record == NewCustomer(freshId, data, today)
      && ledger.State() == CustomerReducer(old(ledger.State()), CustomerAction.AddCustomer(outcome.record))
      && toasts.toasts == old(toasts.toasts) + [Toast(toastId, Success, "Customer added successfully!")]
    ensures !outcome.Submitted? ==>
      outcome.Invalid? && ledger.State() == old(ledger.State()) && toasts.toasts == old(toasts.toasts)
  {
    if !CustomerFormValid(data) {
      return Invalid;
    }
    var c := ledger.AddCustomer(data, freshId, today, toasts, toastId);
    outcome := Submitted(c);
  }
}
