/**
 * The form request in front of OTP registration: a required ten-digit phone
 * number nobody uses yet, and an optional name, e-mail address and password.
 * Whether a string is an e-mail address is decided by a validator that is a
 * parameter here.
 */
module RegisterRequest {
  import opened Wrappers
  import opened Schema
  import opened Validation

  const NameKey := "name"
  const EmailKey := "email"
  const PhoneKey := "phone"
  const PasswordKey := "password"

  /** `authorize()`: every request is authorised. */
  predicate Authorize(req: Request) {
    true
  }

  /** `unique:users,email`: no row has this address. */
  predicate EmailUnused(users: map<Id, User>, email: string) {
    forall k :: k in users ==> users[k].email != Some(email)
  }

  /** `unique:users,phone`: no row has this number. */
  predicate PhoneUnused(users: map<Id, User>, phone: string) {
    forall k :: k in users ==> users[k].phone != Some(phone)
  }

  /** `nullable|string`. */
  predicate NameOk(req: Request) {
    Checked(req, NameKey, true) ==> req[NameKey].Str?
  }

  /** `nullable|email|unique:users,email`. */
  predicate EmailOk(req: Request, users: map<Id, User>, isEmail: string -> bool) {
    Checked(req, EmailKey, true) ==> req[EmailKey].Str? && isEmail(req[EmailKey].s) && EmailUnused(users, req[EmailKey].s)
  }

  /** `required|digits:10|unique:users,phone`. */
  predicate PhoneOk(req: Request, users: map<Id, User>) {
    Filled(Input(req, PhoneKey)) && Digits(req[PhoneKey], 10) && PhoneUnused(users, AsText(req[PhoneKey]).value)
  }

  /** `nullable|string|confirmed|min:6`. */
  predicate PasswordOk(req: Request) {
    Checked(req, PasswordKey, true) ==> req[PasswordKey].Str? && Confirmed(req, PasswordKey) && |req[PasswordKey].s| >= 6
  }

  /** The whole rule set of `rules()`; `users` is the table the `unique` rules look into. */
  predicate Passes(req: Request, users: map<Id, User>, isEmail: string -> bool) {
    NameOk(req) && EmailOk(req, users, isEmail) && PhoneOk(req, users) && PasswordOk(req)
  }

  /**
   * What a passing request guarantees: a phone number of exactly ten digits
   * that no user has, and, for each optional key that is sent with a value
   * other than null or a blank string, a string that meets its rules.
   */
  lemma PassesMeans(req: Request, users: map<Id, User>, isEmail: string -> bool)
    requires Passes(req, users, isEmail)
    ensures PhoneKey in req && AsText(req[PhoneKey]).Some?
    ensures var phone := AsText(req[PhoneKey]).value;
      |phone| == 10 && (forall i :: 0 <= i < 10 ==> '0' <= phone[i] <= '9') && PhoneUnused(users, phone)
    ensures Checked(req, EmailKey, true) ==>
      req[EmailKey].Str? && isEmail(req[EmailKey].s) && forall k :: k in users ==> users[k].email != Some(req[EmailKey].s)
    ensures Checked(req, PasswordKey, true) ==>
      && req[PasswordKey].Str? && |req[PasswordKey].s| >= 6
      && Input(req, PasswordKey + "_confirmation") == req[PasswordKey]
  {
  }

  /** Removing one key leaves every other key, and the rules that read it, as they were. */
  lemma OtherKeyKept(req: Request, key: string, k: string)
    requires k != key
    ensures Input(req - {key}, k) == Input(req, k)
    ensures Checked(req - {key}, k, true) <==> Checked(req, k, true)
    ensures k in req ==> k in req - {key} && (req - {key})[k] == req[k]
  {
  }

  /** Name, e-mail address and password may each be left out without changing the verdict. */
  lemma OptionalKeysMayBeOmitted(req: Request, users: map<Id, User>, isEmail: string -> bool, key: string)
    requires Passes(req, users, isEmail)
    requires key in {NameKey, EmailKey, PasswordKey}
    ensures Passes(req - {key}, users, isEmail)
  {
    var r := req - {key};
    var confirmation := PasswordKey + "_confirmation";
    assert |confirmation| == 21;
    OtherKeyKept(req, key, PhoneKey);
    OtherKeyKept(req, key, confirmation);
    assert PhoneOk(r, users);
    if key == NameKey {
      OtherKeyKept(req, key, EmailKey);
      OtherKeyKept(req, key, PasswordKey);
      assert EmailOk(r, users, isEmail);
      assert PasswordOk(r);
    } else if key == EmailKey {
      OtherKeyKept(req, key, NameKey);
      OtherKeyKept(req, key, PasswordKey);
      assert NameOk(r);
      assert PasswordOk(r);
    } else {
      OtherKeyKept(req, key, NameKey);
      OtherKeyKept(req, key, EmailKey);
      assert NameOk(r);
      assert EmailOk(r, users, isEmail);
    }
  }

  /** A phone number some user already has fails the request. */
  lemma TakenPhoneFails(req: Request, users: map<Id, User>, isEmail: string -> bool, k: Id)
    requires k in users && PhoneKey in req && AsText(req[PhoneKey]).Some?
    requires users[k].phone == Some(AsText(req[PhoneKey]).value)
    ensures !Passes(req, users, isEmail)
  {
  }

  /** A password shorter than six characters, or one its confirmation does not repeat, fails the request. */
  lemma BadPasswordFails(req: Request, users: map<Id, User>, isEmail: string -> bool, pw: string, confirmation: Value)
    requires !BlankText(Str(pw))
    requires |pw| < 6 || confirmation != Str(pw)
    ensures !Passes(req[PasswordKey := Str(pw)][PasswordKey + "_confirmation" := confirmation], users, isEmail)
  {
    var r := req[PasswordKey := Str(pw)][PasswordKey + "_confirmation" := confirmation];
    assert PasswordKey + "_confirmation" != PasswordKey;
    assert Checked(r, PasswordKey, true);
  }
}
