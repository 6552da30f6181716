/**
 How the driver tells one backend failure from another: by what occurs in the error text
 (pkg/vcloud/client/client.go).
 */
module ClientErrors {
  import opened GoStrings

  /** containsAt: the loop over the start positions. */
  method ContainsAt(s: string, substr: string) returns (found: bool)
    ensures found <==> Occurs(substr, s)
  {
    var i := 0;
    while i <= |s| - |substr|
      invariant 0 <= i
      invariant forall j | 0 <= j < i :: !OccursAt(substr, s, j)
      decreases |s| - |substr| - i
    {
      if s[i..i + |substr|] == substr {
        assert OccursAt(substr, s, i);
        return true;
      }
      i := i + 1;
    }
    return false;
  }

  /** contains: the guards in front of the loop change nothing, not even for empty strings. */
  method Contains(s: string, substr: string) returns (found: bool)
    ensures found <==> Occurs(substr, s)
  {
    if |s| < |substr| {
      return false;
    }
    if s == substr {
      assert OccursAt(substr, s, 0);
      return true;
    }
    if |s| == 0 {
      return false;
    }
    found := ContainsAt(s, substr);
  }

  predicate NotFoundText(text: string) {
    Occurs("404", text) || Occurs("not found", text) || Occurs("Not Found", text)
  }

  predicate AlreadyExistsText(text: string) {
    Occurs("409", text) || Occurs("already exists", text) || Occurs("Already Exists", text)
  }

  method IsNotFoundError(text: string) returns (b: bool)
    ensures b <==> NotFoundText(text)
  {
    b := Contains(text, "404");
    if !b {
      b := Contains(text, "not found");
    }
    if !b {
      b := Contains(text, "Not Found");
    }
  }

  method IsAlreadyExistsError(text: string) returns (b: bool)
    ensures b <==> AlreadyExistsText(text)
  {
    b := Contains(text, "409");
    if !b {
      b := Contains(text, "already exists");
    }
    if !b {
      b := Contains(text, "Already Exists");
    }
  }

  // ---------------------------------------------------------------- error texts

  function Digit(d: nat): char
    requires d < 10
  {
    "0123456789"[d]
  }

  /** %d of a three-digit HTTP status. */
  function StatusDigits(status: nat): string
    requires 100 <= status < 1000
  {
    [Digit(status / 100), Digit(status / 10 % 10), Digit(status % 10)]
  }

  const BEFORE_STATUS := "request failed, status code: "
  const BEFORE_BODY := ", response: "

  /** The text of the error doRequest returns for every status but 200. */
  function StatusError(status: nat, body: string): string
    requires 100 <= status < 1000
  {
    BEFORE_STATUS + StatusDigits(status) + (BEFORE_BODY + body)
  }

  /** fmt.Errorf("<what>: %w", err) */
  function Wrapped(what: string, text: string): string {
    what + ": " + text
  }

  // ---------------------------------------------------------------- what is classified how

  /** The texts that classify an error. */
  predicate Marker(m: string) {
    m in {"404", "not found", "Not Found", "409", "already exists", "Already Exists"}
  }

  /** Some character of the marker is missing from each of the fixed texts around a status. */
  lemma MarkersAreForeign(m: string)
    requires Marker(m)
    ensures !Occurs(m, "request failed") && !Occurs(m, "status code") && !Occurs(m, "response")
  {
    // "4", "N", "y" and "A" occur in none of the texts; "not found" needs an n and a t
    var k := if m == "already exists" || m == "Already Exists" then 6 else 0;
    LacksCharacter(m, "request failed", k);
    LacksCharacter(m, "status code", k);
    LacksCharacter(m, "response", if m == "not found" then 2 else k);
  }

  lemma MarkerInDigits(m: string, status: nat)
    requires Marker(m) && 100 <= status < 1000
    ensures Occurs(m, StatusDigits(status)) <==> m == StatusDigits(status)
  {
    var digits := StatusDigits(status);
    assert digits[..3] == digits;
    assert OccursAt(digits, digits, 0);
    forall i | 0 <= i <= |digits| && OccursAt(m, digits, i) ensures m == digits {
    }
  }

  /** Text that is joined by a comma or colon and a space. */
  function Joined(before: string, sep: char, after: string): string {
    before + [sep] + (" " + after)
  }

  lemma MarkerInJoined(m: string, before: string, sep: char, after: string)
    requires Marker(m) && sep in {',', ':'}
    ensures Occurs(m, Joined(before, sep, after)) <==> Occurs(m, before) || Occurs(m, after)
  {
    OccursApart(m, before, sep, " " + after);
    OccursBehind(m, ' ', after);
  }

  lemma StatusErrorParts(status: nat, body: string)
    requires 100 <= status < 1000
    ensures StatusError(status, body)
         == Joined("request failed", ',', Joined("status code", ':', Joined(StatusDigits(status), ',', Joined("response", ':', body))))
  {
  }

  /** A marker occurs in the text of a status error if it is the status or occurs in the body. */
  lemma MarkerInStatus(m: string, status: nat, body: string)
    requires Marker(m) && 100 <= status < 1000
    ensures Occurs(m, StatusError(status, body)) <==> m == StatusDigits(status) || Occurs(m, body)
  {
    MarkersAreForeign(m);
    MarkerInDigits(m, status);
    StatusErrorParts(status, body);
    var response := Joined("response", ':', body);
    var digits := Joined(StatusDigits(status), ',', response);
    MarkerInJoined(m, "request failed", ',', Joined("status code", ':', digits));
    MarkerInJoined(m, "status code", ':', digits);
    MarkerInJoined(m, StatusDigits(status), ',', response);
    MarkerInJoined(m, "response", ':', body);
  }

  lemma MarkerInWrapped(m: string, what: string, text: string)
    requires Marker(m)
    ensures Occurs(m, Wrapped(what, text)) <==> Occurs(m, what) || Occurs(m, text)
  {
    assert Wrapped(what, text) == Joined(what, ':', text);
    MarkerInJoined(m, what, ':', text);
  }

  /** Wrapping an error never loses its class, and adds one only if the added words have it. */
  lemma WrappingKeepsClass(what: string, text: string)
    ensures NotFoundText(Wrapped(what, text)) <==> NotFoundText(what) || NotFoundText(text)
    ensures AlreadyExistsText(Wrapped(what, text)) <==> AlreadyExistsText(what) || AlreadyExistsText(text)
  {
    forall m | Marker(m) ensures Occurs(m, Wrapped(what, text)) <==> Occurs(m, what) || Occurs(m, text) {
      MarkerInWrapped(m, what, text);
    }
  }

  lemma StatusDigitsTell(status: nat)
    requires 100 <= status < 1000
    ensures StatusDigits(status) == "404" <==> status == 404
    ensures StatusDigits(status) == "409" <==> status == 409
  {
  }

  /**
   A reply is classified as not found exactly when its status is 404 or its body reads so, and as
   already existing exactly when its status is 409 or its body reads so.
   */
  lemma StatusClassifiedIff(status: nat, body: string)
    requires 100 <= status < 1000
    ensures NotFoundText(StatusError(status, body)) <==> status == 404 || NotFoundText(body)
    ensures AlreadyExistsText(StatusError(status, body)) <==> status == 409 || AlreadyExistsText(body)
  {
    StatusDigitsTell(status);
    MarkerInStatus("404", status, body);
    MarkerInStatus("not found", status, body);
    MarkerInStatus("Not Found", status, body);
    MarkerInStatus("409", status, body);
    MarkerInStatus("already exists", status, body);
    MarkerInStatus("Already Exists", status, body);
  }

  /** A text without the characters the markers need is in neither class. */
  lemma PlainTextIsUnclassified(text: string)
    requires '4' !in text && 'd' !in text && 'y' !in text
    ensures !NotFoundText(text) && !AlreadyExistsText(text)
  {
    LacksCharacter("404", text, 0);
    LacksCharacter("not found", text, 8);
    LacksCharacter("Not Found", text, 8);
    LacksCharacter("409", text, 0);
    LacksCharacter("already exists", text, 6);
    LacksCharacter("Already Exists", text, 6);
  }
}
