/** Password hashing, input sanitising and the three field validators
    (src/utils/security.ts). SHA-256 is a foreign call: it is the `Digest`
    parameter, a deterministic function about which nothing else is assumed. */
module Security {
  import JsStrings

  /** A message digest returning its hex string (crypto-js SHA256(...).toString()). */
  type Digest = string -> string

  /** The fixed salt appended to every password. */
  const Salt: string := "noteflow-salt-2024"

  /** `hashPassword`: the digest of the password followed by the salt. */
  function HashPassword(digest: Digest, password: string): string {
    digest(password + Salt)
  }

  /** `verifyPassword`: recompute and compare. */
  function VerifyPassword(digest: Digest, password: string, hash: string): bool {
    HashPassword(digest, password) == hash
  }

  /** The digest never maps two inputs to one output. */
  ghost predicate CollisionFree(digest: Digest) {
    forall a, b :: digest(a) == digest(b) ==> a == b
  }

  /** A password always verifies against its own hash. */
  lemma VerifyOwnHash(digest: Digest, password: string)
    ensures VerifyPassword(digest, password, HashPassword(digest, password))
  {
  }

  /** With a collision-free digest, exactly the hashed password verifies. */
  lemma VerifyOnlyOwnHash(digest: Digest, password: string, other: string)
    requires CollisionFree(digest)
    ensures VerifyPassword(digest, other, HashPassword(digest, password)) <==> other == password
  {
    if VerifyPassword(digest, other, HashPassword(digest, password)) {
      assert other + Salt == password + Salt;
      assert other == (other + Salt)[..|other|];
      assert password == (password + Salt)[..|password|];
    }
  }

  // ----- sanitizeInput -----

  /** `s.replace(/c/g, rep)`: every occurrence of c replaced by rep. */
  function ReplaceAll(s: string, c: char, rep: string): string {
    if s == [] then []
    else (if s[0] == c then rep else [s[0]]) + ReplaceAll(s[1..], c, rep)
  }

  /** `sanitizeInput`, as written: six global replaces, `&` first. */
  function SanitizeInput(input: string): string {
    var s1 := ReplaceAll(input, '&', "&amp;");
    var s2 := ReplaceAll(s1, '<', "&lt;");
    var s3 := ReplaceAll(s2, '>', "&gt;");
    var s4 := ReplaceAll(s3, '"', "&quot;");
    var s5 := ReplaceAll(s4, '\'', "&#x27;");
    ReplaceAll(s5, '/', "&#x2F;")
  }

  /** The characters the sanitiser rewrites. */
  predicate IsSpecial(c: char) {
    c == '&' || c == '<' || c == '>' || c == '"' || c == '\'' || c == '/'
  }

  /** The entity each character becomes: reference definition of the sanitiser. */
  function Escape(c: char): string {
    match c
    case '&' => "&amp;"
    case '<' => "&lt;"
    case '>' => "&gt;"
    case '"' => "&quot;"
    case '\'' => "&#x27;"
    case '/' => "&#x2F;"
    case _ => [c]
  }

  /** Each character escaped on its own, left to right. */
  function EscapeEach(s: string): string {
    if s == [] then [] else Escape(s[0]) + EscapeEach(s[1..])
  }

  lemma {:induction false} ReplaceAllConcat(a: string, b: string, c: char, rep: string)
    ensures ReplaceAll(a + b, c, rep) == ReplaceAll(a, c, rep) + ReplaceAll(b, c, rep)
  {
    if a != [] {
      assert (a + b)[1..] == a[1..] + b;
      ReplaceAllConcat(a[1..], b, c, rep);
    } else {
      assert a + b == b;
    }
  }

  lemma {:induction false} ReplaceAllAbsent(s: string, c: char, rep: string)
    requires c !in s
    ensures ReplaceAll(s, c, rep) == s
  {
    if s != [] {
      ReplaceAllAbsent(s[1..], c, rep);
    }
  }

  lemma ReplaceAllSingle(x: char, c: char, rep: string)
    ensures ReplaceAll([x], c, rep) == if x == c then rep else [x]
  {
    assert [x][1..] == [];
  }

  lemma SanitizeConcat(a: string, b: string)
    ensures SanitizeInput(a + b) == SanitizeInput(a) + SanitizeInput(b)
  {
    var a1, b1 := ReplaceAll(a, '&', "&amp;"), ReplaceAll(b, '&', "&amp;");
    ReplaceAllConcat(a, b, '&', "&amp;");
    var a2, b2 := ReplaceAll(a1, '<', "&lt;"), ReplaceAll(b1, '<', "&lt;");
    ReplaceAllConcat(a1, b1, '<', "&lt;");
    var a3, b3 := ReplaceAll(a2, '>', "&gt;"), ReplaceAll(b2, '>', "&gt;");
    ReplaceAllConcat(a2, b2, '>', "&gt;");
    var a4, b4 := ReplaceAll(a3, '"', "&quot;"), ReplaceAll(b3, '"', "&quot;");
    ReplaceAllConcat(a3, b3, '"', "&quot;");
    var a5, b5 := ReplaceAll(a4, '\'', "&#x27;"), ReplaceAll(b4, '\'', "&#x27;");
    ReplaceAllConcat(a4, b4, '\'', "&#x27;");
    ReplaceAllConcat(a5, b5, '/', "&#x2F;");
  }

  /** On one character the chain of replaces produces exactly that character's
      entity: no later replace touches what an earlier one produced. */
  lemma SanitizeChar(c: char)
    ensures SanitizeInput([c]) == Escape(c)
  {
    if c == '&' {
      ReplaceAllSingle(c, '&', "&amp;");
      SanitizeAfterFirst("&amp;");
    } else {
      ReplaceAllSingle(c, '&', "&amp;");
      if c == '<' {
        ReplaceAllSingle(c, '<', "&lt;");
        SanitizeAfterFirst("&lt;");
      } else {
        ReplaceAllSingle(c, '<', "&lt;");
        if c == '>' {
          ReplaceAllSingle(c, '>', "&gt;");
          SanitizeAfterFirst("&gt;");
        } else {
          ReplaceAllSingle(c, '>', "&gt;");
          if c == '"' {
            ReplaceAllSingle(c, '"', "&quot;");
            SanitizeAfterFirst("&quot;");
          } else {
            ReplaceAllSingle(c, '"', "&quot;");
            ReplaceAllSingle(c, '\'', "&#x27;");
            if c == '\'' {
              ReplaceAllAbsent("&#x27;", '/', "&#x2F;");
            } else {
              ReplaceAllSingle(c, '/', "&#x2F;");
            }
          }
        }
      }
    }
  }

  /** The replaces after the first leave an entity produced by an earlier one alone. */
  lemma SanitizeAfterFirst(e: string)
    requires '<' !in e && '>' !in e && '"' !in e && '\'' !in e && '/' !in e
    ensures ReplaceAll(e, '<', "&lt;") == e
    ensures ReplaceAll(e, '>', "&gt;") == e
    ensures ReplaceAll(e, '"', "&quot;") == e
    ensures ReplaceAll(e, '\'', "&#x27;") == e
    ensures ReplaceAll(e, '/', "&#x2F;") == e
  {
    ReplaceAllAbsent(e, '<', "&lt;");
    ReplaceAllAbsent(e, '>', "&gt;");
    ReplaceAllAbsent(e, '"', "&quot;");
    ReplaceAllAbsent(e, '\'', "&#x27;");
    ReplaceAllAbsent(e, '/', "&#x2F;");
  }

  /** The chain of six replaces escapes each character independently. */
  lemma {:induction false} SanitizeIsEscapeEach(s: string)
    ensures SanitizeInput(s) == EscapeEach(s)
  {
    if s == [] {
    } else {
      assert s == [s[0]] + s[1..];
      SanitizeConcat([s[0]], s[1..]);
      SanitizeChar(s[0]);
      SanitizeIsEscapeEach(s[1..]);
    }
  }

  /** None of `< > " ' /` survives escaping. */
  lemma {:induction false} EscapeEachIsSafe(s: string)
    ensures forall i :: 0 <= i < |EscapeEach(s)| ==> EscapeEach(s)[i] !in "<>\"'/"
  {
    if s != [] {
      EscapeEachIsSafe(s[1..]);
      var e := Escape(s[0]);
      assert forall i :: 0 <= i < |e| ==> e[i] !in "<>\"'/";
    }
  }

  /** Escaping never shortens, and lengthens exactly when a special character occurs. */
  lemma {:induction false} EscapeEachLength(s: string)
    ensures |EscapeEach(s)| >= |s|
    ensures |EscapeEach(s)| == |s| <==> forall i :: 0 <= i < |s| ==> !IsSpecial(s[i])
  {
    if s != [] {
      EscapeEachLength(s[1..]);
      assert forall i :: 1 <= i < |s| ==> s[i] == s[1..][i - 1];
      assert (forall i :: 0 <= i < |s| ==> !IsSpecial(s[i])) <==>
             !IsSpecial(s[0]) && (forall i :: 0 <= i < |s| - 1 ==> !IsSpecial(s[1..][i]));
    }
  }

  /** The sanitiser's output contains none of `< > " ' /`. */
  lemma SanitizedIsSafe(s: string)
    ensures forall i :: 0 <= i < |SanitizeInput(s)| ==> SanitizeInput(s)[i] !in "<>\"'/"
  {
    SanitizeIsEscapeEach(s);
    EscapeEachIsSafe(s);
  }

  /** The sanitiser leaves a string unchanged exactly when it contains none of
      `& < > " ' /`. */
  lemma SanitizeFixedPoints(s: string)
    ensures SanitizeInput(s) == s <==> forall i :: 0 <= i < |s| ==> !IsSpecial(s[i])
  {
    SanitizeIsEscapeEach(s);
    EscapeEachLength(s);
    if forall i :: 0 <= i < |s| ==> !IsSpecial(s[i]) {
      EscapeEachIdentity(s);
    }
  }

  lemma {:induction false} EscapeEachIdentity(s: string)
    requires forall i :: 0 <= i < |s| ==> !IsSpecial(s[i])
    ensures EscapeEach(s) == s
  {
    if s != [] {
      EscapeEachIdentity(s[1..]);
    }
  }

  /** Every special character is escaped to an entity starting with `&`. */
  lemma {:induction false} EscapeEachKeepsAmp(s: string, i: nat)
    requires i < |s| && IsSpecial(s[i])
    ensures '&' in EscapeEach(s)
  {
    if i == 0 {
      assert EscapeEach(s)[0] == Escape(s[0])[0] == '&';
    } else {
      EscapeEachKeepsAmp(s[1..], i - 1);
    }
  }

  /** Output without an `&` means nothing was escaped. */
  lemma SanitizedWithoutAmp(s: string)
    requires '&' !in SanitizeInput(s)
    ensures SanitizeInput(s) == s
  {
    SanitizeIsEscapeEach(s);
    if exists i :: 0 <= i < |s| && IsSpecial(s[i]) {
      var i :| 0 <= i < |s| && IsSpecial(s[i]);
      EscapeEachKeepsAmp(s, i);
    }
    SanitizeFixedPoints(s);
  }

  /** Sanitising is not idempotent: on any input holding one of the six special
      characters, a second pass changes the result again (the `&` of each entity
      is escaped anew). */
  lemma SanitizeNotIdempotent(s: string, i: nat)
    requires i < |s| && IsSpecial(s[i])
    ensures SanitizeInput(SanitizeInput(s)) != SanitizeInput(s)
  {
    var t := SanitizeInput(s);
    SanitizeIsEscapeEach(s);
    EscapeEachKeepsAmp(s, i);
    var k :| 0 <= k < |t| && t[k] == '&';
    SanitizeFixedPoints(t);
  }

  // ----- validators -----

  predicate IsAsciiLower(c: char) { 'a' <= c <= 'z' }
  predicate IsAsciiUpper(c: char) { 'A' <= c <= 'Z' }
  predicate IsAsciiDigit(c: char) { '0' <= c <= '9' }
  predicate IsAlnum(c: char) { IsAsciiLower(c) || IsAsciiUpper(c) || IsAsciiDigit(c) }
  /** `[a-zA-Z0-9_]` */
  predicate IsWordChar(c: char) { IsAlnum(c) || c == '_' }
  /** `[^\s@]` */
  predicate IsEmailChar(c: char) { !JsStrings.IsSpace(c) && c != '@' }

  /** Every character satisfies p (a character-class repetition). */
  function All(s: string, p: char -> bool): (r: bool)
    ensures r <==> forall i :: 0 <= i < |s| ==> p(s[i])
  {
    if s == [] then true else p(s[0]) && All(s[1..], p)
  }

  /** Some character satisfies p (a `(?=.*[...])` look-ahead). */
  function Any(s: string, p: char -> bool): (r: bool)
    ensures r <==> exists i :: 0 <= i < |s| && p(s[i])
  {
    if s == [] then false
    else if p(s[0]) then true
    else
      assert forall i :: 1 <= i < |s| ==> s[i] == s[1..][i - 1];
      Any(s[1..], p)
  }

  /** `/^[a-zA-Z0-9_]{3,20}$/` */
  function ValidateUsername(username: string): (r: bool)
    ensures r <==> 3 <= |username| <= 20 && forall i :: 0 <= i < |username| ==> IsWordChar(username[i])
  {
    3 <= |username| <= 20 && All(username, IsWordChar)
  }

  /** `/^(?=.*[a-z])(?=.*[A-Z])(?=.*\d)[a-zA-Z\d]{8,}$/` */
  function ValidatePassword(password: string): (r: bool)
    ensures r <==> && |password| >= 8
                   && (forall i :: 0 <= i < |password| ==> IsAlnum(password[i]))
                   && (exists i :: 0 <= i < |password| && IsAsciiLower(password[i]))
                   && (exists i :: 0 <= i < |password| && IsAsciiUpper(password[i]))
                   && (exists i :: 0 <= i < |password| && IsAsciiDigit(password[i]))
  {
    && |password| >= 8
    && All(password, IsAlnum)
    && Any(password, IsAsciiLower)
    && Any(password, IsAsciiUpper)
    && Any(password, IsAsciiDigit)
  }

  /** `[^\s@]+\.[^\s@]+`: the part after the `@`. */
  function DomainMatches(d: string): (r: bool)
    ensures r <==> All(d, IsEmailChar) && exists j :: 0 < j < |d| - 1 && d[j] == '.'
  {
    All(d, IsEmailChar) && Any(if |d| < 2 then [] else d[1..|d| - 1], c => c == '.')
  }

  /** `/^[^\s@]+@[^\s@]+\.[^\s@]+$/`: a non-empty local part, one `@`, and a
      domain with a dot that is neither its first nor its last character. */
  function ValidateEmail(email: string): bool {
    exists k :: 0 < k < |email| && email[k] == '@'
      && All(email[..k], IsEmailChar) && DomainMatches(email[k + 1..])
  }

  /** The number of `@` characters in s. */
  function CountAt(s: string): nat {
    if s == [] then 0 else (if s[0] == '@' then 1 else 0) + CountAt(s[1..])
  }

  lemma {:induction false} CountAtConcat(a: string, b: string)
    ensures CountAt(a + b) == CountAt(a) + CountAt(b)
  {
    if a == [] {
      assert a + b == b;
    } else {
      assert (a + b)[1..] == a[1..] + b;
      CountAtConcat(a[1..], b);
    }
  }

  lemma {:induction false} CountAtZero(s: string)
    ensures CountAt(s) == 0 <==> forall i :: 0 <= i < |s| ==> s[i] != '@'
  {
    if s != [] {
      CountAtZero(s[1..]);
      assert forall i :: 1 <= i < |s| ==> s[i] == s[1..][i - 1];
    }
  }

  /** With an `@` at index k, there is exactly one `@` when no other index holds one. */
  lemma CountAtSplit(email: string, k: nat)
    requires k < |email| && email[k] == '@'
    ensures CountAt(email) == 1 <==> forall i :: 0 <= i < |email| && i != k ==> email[i] != '@'
  {
    var d := email[k + 1..];
    assert email == email[..k] + [email[k]] + d;
    CountAtConcat(email[..k] + [email[k]], d);
    CountAtConcat(email[..k], [email[k]]);
    assert CountAt([email[k]]) == 1;
    CountAtZero(email[..k]);
    CountAtZero(d);
    assert forall i :: 0 <= i < k ==> email[..k][i] == email[i];
    assert forall i :: k < i < |email| ==> email[i] == d[i - k - 1];
  }

  /** The description of a well-formed email address that the regular expression encodes. */
  predicate EmailShape(email: string) {
    && (forall i :: 0 <= i < |email| ==> !JsStrings.IsSpace(email[i]))
    && CountAt(email) == 1
    && exists k :: 0 < k < |email| && email[k] == '@' && exists j :: k + 1 < j < |email| - 1 && email[j] == '.'
  }

  lemma EmailMatchHasShape(email: string)
    requires ValidateEmail(email)
    ensures EmailShape(email)
  {
    var k :| 0 < k < |email| && email[k] == '@'
      && All(email[..k], IsEmailChar) && DomainMatches(email[k + 1..]);
    var local, d := email[..k], email[k + 1..];
    assert All(d, IsEmailChar);
    forall i | 0 <= i < |email| && i != k ensures IsEmailChar(email[i]) {
      if i < k {
        assert email[i] == local[i];
      } else {
        assert email[i] == d[i - k - 1];
      }
    }
    assert !JsStrings.IsSpace(email[k]);
    CountAtSplit(email, k);
    var j :| 0 < j < |d| - 1 && d[j] == '.';
    assert email[k + 1 + j] == '.';
  }

  lemma EmailShapeMatches(email: string)
    requires EmailShape(email)
    ensures ValidateEmail(email)
  {
    var k :| 0 < k < |email| && email[k] == '@' && exists j :: k + 1 < j < |email| - 1 && email[j] == '.';
    var j :| k + 1 < j < |email| - 1 && email[j] == '.';
    CountAtSplit(email, k);
    var d := email[k + 1..];
    assert forall i :: 0 <= i < k ==> email[..k][i] == email[i];
    assert forall i :: 0 <= i < |d| ==> d[i] == email[k + 1 + i];
    assert d[j - k - 1] == '.';
    assert All(email[..k], IsEmailChar);
    assert DomainMatches(d);
  }

  /** The email regular expression, read as a description: no whitespace,
      exactly one `@`, a non-empty part before it, and after it a `.` that is
      neither the first nor the last character. */
  lemma EmailCharacterisation(email: string)
    ensures ValidateEmail(email) <==> EmailShape(email)
  {
    if ValidateEmail(email) {
      EmailMatchHasShape(email);
    }
    if EmailShape(email) {
      EmailShapeMatches(email);
    }
  }
}
