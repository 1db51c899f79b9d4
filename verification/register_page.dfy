/** The registration page: the form's starting values and the two length
    checks it runs before sending the form to `POST /api/auth/register`.
    The server repeats stricter checks, so the page's checks only save a
    round trip. */
module RegisterPage {
  import opened Js
  import opened Text
  import opened Records
  import opened Http
  import opened AuthRoutes

  /** The form's text fields, as typed. */
  datatype RegisterForm = RegisterForm(
    firstName: string,
    lastName: string,
    username: string,
    pin: string,
    initialBalance: string,
    dailySpendingLimit: string)

  /** Every field empty except the initial balance, which starts at "1". */
  const InitialRegisterForm: RegisterForm := RegisterForm("", "", "", "", "1", "")

  /** The outcome of the page's checks: an error shown without sending
      anything, or the form sent as it is. */
  datatype PreCheckResult = Rejected(message: string) | Send

  const UsernameTooShort: string := "Username must be 8+ chars"
  const PinTooShort: string := "PIN must be 4-6 digits"

  /** The username length is checked first, then the PIN length. Nothing
      else is checked: no upper bound, no digits, no trimming. */
  function PreCheck(f: RegisterForm): (r: PreCheckResult)
    ensures r == Send <==> |f.username| >= 8 && |f.pin| >= 4
    ensures |f.username| < 8 ==> r == Rejected(UsernameTooShort)
    ensures |f.username| >= 8 && |f.pin| < 4 ==> r == Rejected(PinTooShort)
  {
    if |f.username| < 8 then Rejected(UsernameTooShort)
    else if |f.pin| < 4 then Rejected(PinTooShort)
    else Send
  }

  /** The starting form is refused for its empty username. */
  lemma InitialFormRefused()
    ensures PreCheck(InitialRegisterForm) == Rejected(UsernameTooShort)
    ensures InitialRegisterForm.initialBalance == "1"
  {
  }

  /** The request body the form becomes. Every field is sent as text;
      `number` is how the server's `Number(...)` reads a numeric text. */
  function RequestOf(f: RegisterForm, number: string -> NumInput): RegisterRequest
  {
    RegisterRequest(Some(f.username), Some(f.pin), Some(f.firstName), Some(f.lastName),
                    number(f.initialBalance), number(f.dailySpendingLimit))
  }

  /** Trimming never lengthens a text. */
  lemma TrimShortens(s: string)
    ensures |Trim(s)| <= |s|
  {
    var i :| IsSpaceCut(s, Trim(s), i);
  }

  /** The page refuses nothing the server would accept: whenever the page
      shows an error, the server would have answered 400 for the same
      form, for the username or for the PIN. */
  lemma PreCheckNoStricterThanServer(db: Store, f: RegisterForm, number: string -> NumInput,
                                     hash: string -> string, newId: string)
    requires PreCheck(f).Rejected?
    ensures var out := Register(db, RequestOf(f, number), hash, newId).0;
      || out == Error(BAD_REQUEST, "Username must be 8-12 characters")
      || out == Error(BAD_REQUEST, "PIN must be 4-6 digits")
  {
    TrimShortens(f.username);
  }

  /** A successful registration passed the page's checks. */
  lemma CreatedPassedPreCheck(db: Store, f: RegisterForm, number: string -> NumInput,
                              hash: string -> string, newId: string)
    requires Register(db, RequestOf(f, number), hash, newId).0.status == CREATED
    ensures PreCheck(f) == Send
  {
    if PreCheck(f).Rejected? {
      PreCheckNoStricterThanServer(db, f, number, hash, newId);
    }
  }

  /** The page lets through a username longer than 12 characters, which
      the server refuses. */
  lemma LongUsernameReachesServer(db: Store, number: string -> NumInput, hash: string -> string, newId: string)
    ensures var f := RegisterForm("Ann", "Lee", "abcdefghijklm", "1234", "1", "");
      && PreCheck(f) == Send
      && Register(db, RequestOf(f, number), hash, newId).0
         == Error(BAD_REQUEST, "Username must be 8-12 characters")
  {
    var f := RegisterForm("Ann", "Lee", "abcdefghijklm", "1234", "1", "");
    var req := RequestOf(f, number);
    var name: string := "abcdefghijklm";
    assert req.username == Some(name);
    assert IsTrimmed(name);
    TrimmedIsFixed(name);
    assert |Trim(name)| == 13;
    assert !UsernameAccepted(req.username);
    assert PreCheck(f) == Send;
  }

  /** The page lets through a PIN of four letters, which the server
      refuses. */
  lemma LetterPinReachesServer(db: Store, number: string -> NumInput, hash: string -> string, newId: string)
    ensures var f := RegisterForm("Ann", "Lee", "abcdefgh", "abcd", "1", "");
      && PreCheck(f) == Send
      && Register(db, RequestOf(f, number), hash, newId).0 == Error(BAD_REQUEST, "PIN must be 4-6 digits")
  {
    var f := RegisterForm("Ann", "Lee", "abcdefgh", "abcd", "1", "");
    var req := RequestOf(f, number);
    var name: string := "abcdefgh";
    assert IsTrimmed(name);
    TrimmedIsFixed(name);
    assert UsernameAccepted(req.username);
    var pin: string := "abcd";
    assert !IsDigit(pin[0]);
    assert !IsPinFormat(pin);
    assert !PinAccepted(req.pin);
  }
}
