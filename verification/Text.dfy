/** `str.strip` and `canonical_script`. */
module Text {

  /** The characters that `str.isspace` accepts one by one. */
  predicate IsSpace(c: char) {
    var n := c as int;
    9 <= n <= 13 || 28 <= n <= 32 || n == 0x85 || n == 0xA0 || n == 0x1680 || 0x2000 <= n <= 0x200A
    || n == 0x2028 || n == 0x2029 || n == 0x202F || n == 0x205F || n == 0x3000
  }

  function StripLeft(s: string): string {
    if s != [] && IsSpace(s[0]) then StripLeft(s[1..]) else s
  }

  function StripRight(s: string): string {
    if s != [] && IsSpace(s[|s| - 1]) then StripRight(s[..|s| - 1]) else s
  }

  function Strip(s: string): string {
    StripRight(StripLeft(s))
  }

  /** No space at either end. */
  predicate Trimmed(s: string) {
    s == [] || (!IsSpace(s[0]) && !IsSpace(s[|s| - 1]))
  }

  function ReplaceCrLf(s: string): string {
    if |s| >= 2 && s[0] == '\r' && s[1] == '\n' then ['\n'] + ReplaceCrLf(s[2..])
    else if s == [] then []
    else [s[0]] + ReplaceCrLf(s[1..])
  }

  function ReplaceCr(s: string): string {
    if s == [] then [] else [if s[0] == '\r' then '\n' else s[0]] + ReplaceCr(s[1..])
  }

  /** `script.replace("\r\n", "\n").replace("\r", "\n").strip()`. */
  function CanonicalScript(s: string): string {
    Strip(ReplaceCr(ReplaceCrLf(s)))
  }

  // ---------- both are idempotent ----------

  lemma {:induction false} StripLeftTrims(s: string)
    ensures StripLeft(s) == [] || !IsSpace(StripLeft(s)[0])
    ensures forall c :: c in StripLeft(s) ==> c in s
  {
    if s != [] && IsSpace(s[0]) {
      StripLeftTrims(s[1..]);
    }
  }

  lemma {:induction false} StripRightTrims(s: string)
    ensures StripRight(s) <= s
    ensures StripRight(s) == [] || !IsSpace(StripRight(s)[|StripRight(s)| - 1])
  {
    if s != [] && IsSpace(s[|s| - 1]) {
      StripRightTrims(s[..|s| - 1]);
    }
  }

  /** Stripping trims, keeps a trimmed text, and brings in no new character. */
  lemma StripTrims(s: string)
    ensures Trimmed(Strip(s))
    ensures Trimmed(s) ==> Strip(s) == s
    ensures forall c :: c in Strip(s) ==> c in s
  {
    StripLeftTrims(s);
    StripRightTrims(StripLeft(s));
    assert Strip(s) != [] ==> Strip(s)[0] == StripLeft(s)[0];
  }

  lemma {:induction false} NoCrLeft(s: string)
    ensures '\r' !in ReplaceCr(s)
  {
    if s != [] {
      NoCrLeft(s[1..]);
    }
  }

  lemma {:induction false} WithoutCrNothingChanges(s: string)
    requires '\r' !in s
    ensures ReplaceCr(s) == s && ReplaceCrLf(s) == s
  {
    if s != [] {
      WithoutCrNothingChanges(s[1..]);
      assert s == [s[0]] + s[1..];
    }
  }

  /** A canonical script is its own canonical form. */
  predicate Canonical(s: string) {
    '\r' !in s && Trimmed(s)
  }

  lemma CanonicalScriptIsIdempotent(s: string)
    ensures Canonical(CanonicalScript(s))
    ensures Canonical(s) ==> CanonicalScript(s) == s
  {
    var unified := ReplaceCr(ReplaceCrLf(s));
    NoCrLeft(ReplaceCrLf(s));
    StripTrims(unified);
    if Canonical(s) {
      WithoutCrNothingChanges(s);
    }
  }
}
