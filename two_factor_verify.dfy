/** The six-box code entry of the two-factor login step (src/components/TwoFactorVerify.tsx). */
module TwoFactorVerify {
  import Text

  /** A box holds nothing or one digit. */
  predicate IsSlot(s: string) {
    s == "" || (|s| == 1 && Text.IsDigit(s[0]))
  }

  /** `/^\d$/.test(value)` */
  predicate IsSingleDigit(value: string) {
    |value| == 1 && Text.IsDigit(value[0])
  }

  /** `code.join('')` */
  function Join(code: seq<string>): string {
    if code == [] then "" else Join(code[..|code| - 1]) + code[|code| - 1]
  }

  /** The number of boxes that hold a digit. */
  function Filled(code: seq<string>): nat {
    if code == [] then 0 else Filled(code[..|code| - 1]) + (if code[|code| - 1] == "" then 0 else 1)
  }

  /** The joined code is as long as the number of filled boxes, and holds only digits. */
  lemma {:induction false} JoinLength(code: seq<string>)
    requires forall i :: 0 <= i < |code| ==> IsSlot(code[i])
    ensures |Join(code)| == Filled(code)
    ensures Text.AllDigits(Join(code))
  {
    if code != [] {
      JoinLength(code[..|code| - 1]);
      var prefix := Join(code[..|code| - 1]);
      var last := code[|code| - 1];
      assert Join(code) == prefix + last;
      forall i | 0 <= i < |prefix + last| ensures Text.IsDigit((prefix + last)[i]) {
        if i < |prefix| {
          assert (prefix + last)[i] == prefix[i];
        } else {
          assert (prefix + last)[i] == last[i - |prefix|];
        }
      }
    }
  }

  lemma {:induction false} FilledAtMost(code: seq<string>)
    ensures Filled(code) <= |code|
    ensures Filled(code) == |code| <==> forall i :: 0 <= i < |code| ==> code[i] != ""
  {
    if code != [] {
      FilledAtMost(code[..|code| - 1]);
      assert forall i :: 0 <= i < |code| - 1 ==> code[..|code| - 1][i] == code[i];
    }
  }

  /** `text.replace(/\D/g, '')` */
  function Digits(text: string): (r: string)
    ensures Text.AllDigits(r) && |r| <= |text|
    ensures multiset(r) <= multiset(text)
  {
    if text == [] then ""
    else
      assert text == [text[0]] + text[1..];
      (if Text.IsDigit(text[0]) then [text[0]] else "") + Digits(text[1..])
  }

  /** Removing non-digits from a joined text removes them from each part: the digits of a text are
      the digits of its pieces, in their order. */
  lemma {:induction false} DigitsConcat(a: string, b: string)
    ensures Digits(a + b) == Digits(a) + Digits(b)
  {
    if a == [] {
      assert a + b == b;
    } else {
      var head: string := if Text.IsDigit(a[0]) then [a[0]] else "";
      assert (a + b)[0] == a[0] && (a + b)[1..] == a[1..] + b;
      assert Digits(a + b) == head + Digits(a[1..] + b);
      assert Digits(a) == head + Digits(a[1..]);
      DigitsConcat(a[1..], b);
    }
  }

  /** A single character is kept exactly when it is a digit; with `DigitsConcat` this fixes `Digits`. */
  lemma DigitsOfChar(c: char)
    ensures Digits([c]) == if Text.IsDigit(c) then [c] else []
  {
    assert [c][1..] == [];
  }

  /** Removing non-digits keeps the digits, in their order. */
  lemma {:induction false} DigitsOfDigits(text: string)
    requires Text.AllDigits(text)
    ensures Digits(text) == text
  {
    if text != [] {
      DigitsOfDigits(text[1..]);
    }
  }

  /** `….slice(0, 6)` of the digits of a paste. */
  function PasteDigits(text: string): (r: string)
    ensures |r| <= 6 && |r| <= |Digits(text)| && Text.AllDigits(r)
    ensures r == Digits(text)[..|r|]
    ensures |Digits(text)| >= 6 ==> |r| == 6
    ensures |Digits(text)| <= 6 ==> r == Digits(text)
    ensures r == "" <==> Digits(text) == ""
  {
    var d := Digits(text);
    if |d| <= 6 then d else d[..6]
  }

  /** `digits.split('').concat(Array(6 - digits.length).fill(''))` */
  function PastedCode(digits: string): (r: seq<string>)
    requires |digits| <= 6
    ensures |r| == 6
    ensures forall i :: 0 <= i < |digits| ==> r[i] == [digits[i]]
    ensures forall i :: |digits| <= i < 6 ==> r[i] == ""
  {
    seq(6, i requires 0 <= i < 6 => if i < |digits| then [digits[i]] else "")
  }

  /** The pasted boxes hold the pasted digits, so their join is the digits themselves. */
  lemma PastedCodeJoin(digits: string)
    requires |digits| <= 6 && Text.AllDigits(digits)
    ensures Join(PastedCode(digits)) == digits
  {
    var code := PastedCode(digits);
    JoinPrefix(code, digits, 6);
    assert code[..6] == code;
    assert digits[..|digits|] == digits;
  }

  lemma {:induction false} JoinPrefix(code: seq<string>, digits: string, n: nat)
    requires |digits| <= 6 && n <= 6 && code == PastedCode(digits)
    ensures Join(code[..n]) == digits[..if n < |digits| then n else |digits|]
  {
    if n > 0 {
      JoinPrefix(code, digits, n - 1);
      assert code[..n][..n - 1] == code[..n - 1];
    }
  }

  /** What the server says of a code: a session token and the user record (as its serialised text),
      or an error (its message, possibly empty). */
  datatype VerifyOutcome = Verified(token: string, user: string) | Refused(message: string)

  /** One `verifyTwoFactor` call. */
  datatype VerifyRequest = VerifyRequest(tempToken: string, code: string)

  const EmptyCode: seq<string> := ["", "", "", "", "", ""]
  const IncompleteCode := "Please enter all 6 digits"
  const InvalidCode := "Invalid verification code. Please try again."

  class TwoFactorVerify {
    const tempToken: string
    var code: seq<string>
    var error: string
    var isLoading: bool
    /** The verification calls made, oldest first. */
    var requests: seq<VerifyRequest>
    /** The token the store was given on success (`setToken`). */
    var sessionToken: string
    /** The user the store was given on success (`setUser`). */
    var sessionUser: string

    ghost predicate Valid()
      reads this
    {
      |code| == 6 && forall i :: 0 <= i < 6 ==> IsSlot(code[i])
    }

    constructor (tempToken: string)
      ensures Valid() && this.tempToken == tempToken
      ensures code == EmptyCode && error == "" && !isLoading && requests == []
      ensures sessionToken == "" && sessionUser == ""
    {
      this.tempToken := tempToken;
      code := EmptyCode;
      error, isLoading, requests, sessionToken, sessionUser := "", false, [], "", "";
    }

    /** What one verification call of `c` leaves behind, the boxes having shown `shown`: the request
        is made and loading is over; on success the token and the user are stored and the boxes
        stay; on failure the server's message (or the fallback) is shown and the boxes are cleared. */
    twostate predicate VerifiedWith(shown: seq<string>, c: string, outcome: VerifyOutcome)
      reads this
    {
      && requests == old(requests) + [VerifyRequest(tempToken, c)] && !isLoading
      && (outcome.Verified? ==>
            && code == shown && error == ""
            && sessionToken == outcome.token && sessionUser == outcome.user)
      && (outcome.Refused? ==>
            && code == EmptyCode
            && error == (if outcome.message != "" then outcome.message else InvalidCode)
            && sessionToken == old(sessionToken) && sessionUser == old(sessionUser))
    }

    /** `handleSubmit(fullCode)`: `fullCode` is "" when the Verify button calls it without one. */
    method HandleSubmit(fullCode: string, outcome: VerifyOutcome)
      requires Valid()
      modifies this`code, this`error, this`isLoading, this`requests, this`sessionToken, this`sessionUser
      ensures Valid()
      ensures var codeToVerify := if fullCode != "" then fullCode else Join(old(code));
        && (|codeToVerify| != 6 ==>
              && error == IncompleteCode && code == old(code) && isLoading == old(isLoading)
              && requests == old(requests)
              && sessionToken == old(sessionToken) && sessionUser == old(sessionUser))
        && (|codeToVerify| == 6 ==> VerifiedWith(old(code), codeToVerify, outcome))
    {
      var codeToVerify := if fullCode != "" then fullCode else Join(code);
      if |codeToVerify| != 6 {
        error := IncompleteCode;
        return;
      }
      isLoading := true;
      error := "";
      requests := requests + [VerifyRequest(tempToken, codeToVerify)];
      match outcome {
        case Verified(token, user) =>
          sessionToken, sessionUser := token, user;
        case Refused(message) =>
          error := if message != "" then message else InvalidCode;
          code := EmptyCode;
      }
      isLoading := false;
    }

    /** `handleChange(index, value)`: a value that is neither empty nor one digit is ignored; otherwise
        box `index` takes it, and a digit typed into the last box submits a complete code. */
    method HandleChange(index: nat, value: string, outcome: VerifyOutcome)
      requires Valid() && index < 6
      modifies this`code, this`error, this`isLoading, this`requests, this`sessionToken, this`sessionUser
      ensures Valid()
      ensures value != "" && !IsSingleDigit(value) ==> unchanged(this)
      ensures value == "" || IsSingleDigit(value) ==>
        var newCode := old(code)[index := value];
        var submits := value != "" && index == 5 && |Join(newCode)| == 6;
        && (!submits ==>
              && code == newCode && error == "" && isLoading == old(isLoading) && requests == old(requests)
              && sessionToken == old(sessionToken) && sessionUser == old(sessionUser))
        && (submits ==> VerifiedWith(newCode, Join(newCode), outcome))
    {
      if value != "" && !IsSingleDigit(value) {
        return;
      }
      code := code[index := value];
      error := "";
      if value != "" && index == 5 {
        var fullCode := Join(code);
        if |fullCode| == 6 {
          HandleSubmit(fullCode, outcome);
        }
      }
    }

    /** `handlePaste`: the first six digits of the text fill the boxes from the left and clear the
        rest; six digits submit at once; a paste with no digit changes nothing. */
    method HandlePaste(text: string, outcome: VerifyOutcome)
      requires Valid()
      modifies this`code, this`error, this`isLoading, this`requests, this`sessionToken, this`sessionUser
      ensures Valid()
      ensures PasteDigits(text) == "" ==> unchanged(this)
      ensures var digits := PasteDigits(text);
        && (0 < |digits| < 6 ==>
              && code == PastedCode(digits) && error == old(error) && isLoading == old(isLoading)
              && requests == old(requests)
              && sessionToken == old(sessionToken) && sessionUser == old(sessionUser))
        && (|digits| == 6 ==> VerifiedWith(PastedCode(digits), digits, outcome))
    {
      var digits := PasteDigits(text);
      if digits != "" {
        code := PastedCode(digits);
        if |digits| == 6 {
          HandleSubmit(digits, outcome);
        }
      }
    }

    /** The Verify button is enabled only while idle with all six boxes filled. */
    method VerifyDisabled() returns (r: bool)
      requires Valid()
      ensures r <==> isLoading || exists i :: 0 <= i < 6 && code[i] == ""
    {
      JoinLength(code);
      FilledAtMost(code);
      r := isLoading || |Join(code)| != 6;
    }
  }
}
