/** The few Python string operations the scorecard code relies on, written out:
    `str.split`, the snake-case regular expression `(?<!^)(?=[A-Z])` with `re.sub`,
    `str.lower`, `int()` on a string and `str()` on an int. */
module PyText {
  import opened Wrappers

  predicate IsUpper(c: char) { 'A' <= c <= 'Z' }

  predicate IsDigit(c: char) { '0' <= c <= '9' }

  /** The ASCII characters Python's `str.strip()` and `int()` remove: the space,
      tab, line feed, carriage return, vertical tab, form feed and the four
      separators U+001C to U+001F. */
  predicate IsSpace(c: char) {
    c == ' ' || c == '\t' || c == '\n' || c == '\r' || c == '\U{B}' || c == '\U{C}'
    || ('\U{1C}' <= c <= '\U{1F}')
  }

  function LowerChar(c: char): (r: char)
    ensures !IsUpper(r)
    ensures IsUpper(c) ==> r as int == c as int + 32
    ensures !IsUpper(c) ==> r == c
  {
    if IsUpper(c) then (c as int + 32) as char else c
  }

  /** `s.lower()`, restricted to ASCII letters. */
  function ToLower(s: string): (r: string)
    ensures |r| == |s|
  {
    if s == [] then [] else [LowerChar(s[0])] + ToLower(s[1..])
  }

  /** Each character is lowered on its own: no upper-case letter is left, and every
      other character stays where it was. */
  lemma {:induction false} ToLowerFacts(s: string)
    ensures forall i :: 0 <= i < |s| ==> ToLower(s)[i] == LowerChar(s[i])
    ensures forall i :: 0 <= i < |s| ==> !IsUpper(ToLower(s)[i])
    ensures forall i :: 0 <= i < |s| && !IsUpper(s[i]) ==> ToLower(s)[i] == s[i]
  {
    if s != [] {
      ToLowerFacts(s[1..]);
      assert forall i :: 1 <= i < |s| ==> ToLower(s)[i] == ToLower(s[1..])[i - 1];
    }
  }

  // ---------------------------------------------------------------------------
  // str.split(sep)

  /** `s.split(sep)`: the pieces between separators, empty pieces included. */
  function Split(s: string, sep: char): (r: seq<string>)
    ensures |r| >= 1
  {
    if s == [] then [""]
    else
      var rest := Split(s[1..], sep);
      if s[0] == sep then [""] + rest
      else [[s[0]] + rest[0]] + rest[1..]
  }

  /** No piece holds the separator. */
  lemma {:induction false} SplitPiecesFree(s: string, sep: char)
    ensures forall i :: 0 <= i < |Split(s, sep)| ==> sep !in Split(s, sep)[i]
  {
    if s != [] {
      SplitPiecesFree(s[1..], sep);
      var rest := Split(s[1..], sep);
      if s[0] != sep {
        assert sep !in rest[0];
        assert sep !in [s[0]] + rest[0];
        var r := Split(s, sep);
        assert forall i :: 1 <= i < |r| ==> r[i] == rest[i];
      }
    }
  }

  /** `sep.join(parts)`. */
  function Join(parts: seq<string>, sep: char): string
    requires |parts| >= 1
  {
    if |parts| == 1 then parts[0]
    else parts[0] + [sep] + Join(parts[1..], sep)
  }

  /** Splitting loses nothing: joining the pieces gives the string back. */
  lemma {:induction false} SplitJoin(s: string, sep: char)
    ensures Join(Split(s, sep), sep) == s
  {
    if s != [] {
      var rest := Split(s[1..], sep);
      SplitJoin(s[1..], sep);
      SplitCons(s, sep);
      JoinPush(s[0], sep, rest);
      assert s == [s[0]] + s[1..];
    }
  }

  /** Pushing a character in front of the pieces puts it in front of their join. */
  lemma JoinPush(c: char, sep: char, rest: seq<string>)
    requires rest != []
    ensures Join(SplitPush(c, sep, rest), sep) == [c] + Join(rest, sep)
  {
    var r := SplitPush(c, sep, rest);
    if c == sep {
      assert r[0] == "" && r[1..] == rest;
    } else {
      assert r[0] == [c] + rest[0] && r[1..] == rest[1..];
      if |rest| > 1 {
        assert Join(rest, sep) == rest[0] + [sep] + Join(rest[1..], sep);
        assert Join(r, sep) == [c] + rest[0] + [sep] + Join(rest[1..], sep);
      }
    }
  }

  /** A string without the separator is one piece. */
  lemma {:induction false} SplitWithoutSeparator(s: string, sep: char)
    requires sep !in s
    ensures Split(s, sep) == [s]
  {
    if s != [] {
      assert sep !in s[1..];
      SplitWithoutSeparator(s[1..], sep);
      assert [s[0]] + s[1..] == s;
    }
  }

  /** Splitting at one separator splits the two sides apart. */
  lemma {:induction false} SplitConcat(a: string, b: string, sep: char)
    ensures Split(a + [sep] + b, sep) == Split(a, sep) + Split(b, sep)
  {
    var s := a + [sep] + b;
    if a == [] {
      assert s == [sep] + b;
      assert s[1..] == b;
      assert Split(s, sep) == [""] + Split(b, sep);
      assert Split(a, sep) == [""];
    } else {
      SplitConcat(a[1..], b, sep);
      SplitConcatStep(a, b, sep);
    }
  }

  /** The step of `SplitConcat`: one more character in front of the left side. */
  lemma SplitConcatStep(a: string, b: string, sep: char)
    requires a != []
    requires Split(a[1..] + [sep] + b, sep) == Split(a[1..], sep) + Split(b, sep)
    ensures Split(a + [sep] + b, sep) == Split(a, sep) + Split(b, sep)
  {
    var s := a + [sep] + b;
    var t := a[1..] + [sep] + b;
    var ra, rb := Split(a[1..], sep), Split(b, sep);
    assert s[0] == a[0] && s[1..] == t;
    calc {
      Split(s, sep);
    == { SplitCons(s, sep); }
      SplitPush(a[0], sep, Split(t, sep));
    ==
      SplitPush(a[0], sep, ra + rb);
    == { SplitConsAppend(a[0], sep, ra, rb); }
      SplitPush(a[0], sep, ra) + rb;
    == { SplitCons(a, sep); }
      Split(a, sep) + rb;
    }
  }

  /** `Split` on a non-empty string, one step unfolded. */
  lemma SplitCons(s: string, sep: char)
    requires s != []
    ensures Split(s, sep) == SplitPush(s[0], sep, Split(s[1..], sep))
  { }

  /** The pieces of `[c] + s` given the pieces `rest` of `s`. */
  function SplitPush(c: char, sep: char, rest: seq<string>): seq<string>
    requires rest != []
  {
    if c == sep then [""] + rest else [[c] + rest[0]] + rest[1..]
  }

  /** Pushing a character in front commutes with appending more pieces behind. */
  lemma SplitConsAppend(c: char, sep: char, ra: seq<string>, rb: seq<string>)
    requires ra != []
    ensures SplitPush(c, sep, ra + rb) == SplitPush(c, sep, ra) + rb
  {
    var all := ra + rb;
    assert all[0] == ra[0] && all[1..] == ra[1..] + rb;
    if c == sep {
      assert [""] + (ra + rb) == ([""] + ra) + rb;
    } else {
      var first := [c] + ra[0];
      assert [first] + (ra[1..] + rb) == ([first] + ra[1..]) + rb;
    }
  }

  // ---------------------------------------------------------------------------
  // SNAKE_CASE_REGEX.sub("_", s) with SNAKE_CASE_REGEX = (?<!^)(?=[A-Z])

  function CountUpper(s: string): nat
  {
    if s == [] then 0 else (if IsUpper(s[0]) then 1 else 0) + CountUpper(s[1..])
  }

  /** Removes every `_`, to compare strings up to the inserted separators. */
  function Unscored(s: string): string
  {
    if s == [] then [] else (if s[0] == '_' then [] else [s[0]]) + Unscored(s[1..])
  }

  /** An underscore before every upper-case letter of `s`; used after the first character. */
  function UnderscoreBeforeUpper(s: string): string
  {
    if s == [] then []
    else (if IsUpper(s[0]) then "_" else "") + [s[0]] + UnderscoreBeforeUpper(s[1..])
  }

  /** The regular-expression substitution: the pattern matches the empty string in
      front of each upper-case ASCII letter except at the very start. */
  function SnakeCase(s: string): string
  {
    if s == [] then [] else [s[0]] + UnderscoreBeforeUpper(s[1..])
  }

  lemma {:induction false} UnderscoreBeforeUpperFacts(s: string)
    ensures |UnderscoreBeforeUpper(s)| == |s| + CountUpper(s)
    ensures Unscored(UnderscoreBeforeUpper(s)) == Unscored(s)
    ensures CountUpper(s) == 0 ==> UnderscoreBeforeUpper(s) == s
  {
    if s != [] {
      UnderscoreBeforeUpperFacts(s[1..]);
      var rest := UnderscoreBeforeUpper(s[1..]);
      if IsUpper(s[0]) {
        assert UnderscoreBeforeUpper(s) == ['_'] + ([s[0]] + rest);
        assert Unscored(['_'] + ([s[0]] + rest)) == Unscored([s[0]] + rest);
      }
      assert Unscored([s[0]] + rest) == (if s[0] == '_' then [] else [s[0]]) + Unscored(rest) by {
        assert ([s[0]] + rest)[1..] == rest;
      }
    }
  }

  /** The substitution only inserts: one `_` per upper-case letter after the first
      character, and with the underscores removed both sides agree. */
  lemma SnakeCaseInserts(s: string)
    ensures s != [] ==> |SnakeCase(s)| == |s| + CountUpper(s[1..])
    ensures Unscored(SnakeCase(s)) == Unscored(s)
    ensures s != [] ==> SnakeCase(s)[0] == s[0]
  {
    if s != [] {
      UnderscoreBeforeUpperFacts(s[1..]);
      assert ([s[0]] + UnderscoreBeforeUpper(s[1..]))[1..] == UnderscoreBeforeUpper(s[1..]);
    }
  }

  predicate NoUpper(s: string)
  {
    forall i :: 0 <= i < |s| ==> !IsUpper(s[i])
  }

  lemma {:induction false} UnderscoreBeforeUpperAppend(x: string, y: string)
    ensures UnderscoreBeforeUpper(x + y) == UnderscoreBeforeUpper(x) + UnderscoreBeforeUpper(y)
  {
    if x == [] {
      assert x + y == y;
    } else {
      assert (x + y)[1..] == x[1..] + y;
      UnderscoreBeforeUpperAppend(x[1..], y);
    }
  }

  /** Placement: a character in the middle gets an `_` directly in front of it
      exactly when it is upper-case, and the two sides are rewritten on their own. */
  lemma UnderscoreBeforeUpperAt(a: string, c: char, b: string)
    ensures UnderscoreBeforeUpper(a + [c] + b)
         == UnderscoreBeforeUpper(a) + (if IsUpper(c) then "_" else "") + [c] + UnderscoreBeforeUpper(b)
  {
    assert a + [c] + b == a + ([c] + b);
    UnderscoreBeforeUpperAppend(a, [c] + b);
    assert ([c] + b)[1..] == b;
  }

  /** Placement after the first character: every later character gets an `_`
      directly in front of it exactly when it is upper-case, and nowhere else. */
  lemma SnakeCaseAt(a: string, c: char, b: string)
    requires a != []
    ensures SnakeCase(a + [c] + b)
         == SnakeCase(a) + (if IsUpper(c) then "_" else "") + [c] + UnderscoreBeforeUpper(b)
  {
    assert (a + [c] + b)[1..] == a[1..] + [c] + b;
    UnderscoreBeforeUpperAt(a[1..], c, b);
  }

  lemma {:induction false} NoUpperUnchanged(s: string)
    requires NoUpper(s)
    ensures UnderscoreBeforeUpper(s) == s
  {
    if s != [] {
      NoUpperUnchanged(s[1..]);
    }
  }

  /** One upper-case letter after a lower-case start gets an underscore before it. */
  lemma SnakeCaseOfCamel(a: string, u: char, b: string)
    requires a != [] && NoUpper(a) && NoUpper(b) && IsUpper(u)
    ensures SnakeCase(a + [u] + b) == a + "_" + [u] + b
  {
    var s := a + [u] + b;
    assert s[1..] == a[1..] + ([u] + b);
    UnderscoreBeforeUpperAppend(a[1..], [u] + b);
    NoUpperUnchanged(a[1..]);
    NoUpperUnchanged(b);
    assert ([u] + b)[1..] == b;
    assert UnderscoreBeforeUpper([u] + b) == "_" + [u] + b;
    assert [a[0]] + a[1..] == a;
  }

  lemma {:induction false} ToLowerAppend(a: string, b: string)
    ensures ToLower(a + b) == ToLower(a) + ToLower(b)
  {
    if a != [] {
      assert (a + b)[1..] == a[1..] + b;
      ToLowerAppend(a[1..], b);
    } else {
      assert a + b == b;
    }
  }

  lemma NoUpperLower(s: string)
    requires NoUpper(s)
    ensures ToLower(s) == s
  {
    ToLowerFacts(s);
  }

  lemma ToLowerOfCamel(a: string, u: char, b: string)
    requires NoUpper(a) && NoUpper(b)
    ensures ToLower(a + "_" + [u] + b) == a + "_" + [LowerChar(u)] + b
  {
    ToLowerAppend(a + "_" + [u], b);
    ToLowerAppend(a + "_", [u]);
    ToLowerAppend(a, "_");
    NoUpperLower(a);
    NoUpperLower(b);
  }

  /** A name with no upper-case letter after its first character is left alone. */
  lemma SnakeCaseIdentity(s: string)
    requires s != [] ==> CountUpper(s[1..]) == 0
    ensures SnakeCase(s) == s
  {
    if s != [] {
      UnderscoreBeforeUpperFacts(s[1..]);
    }
  }

  // ---------------------------------------------------------------------------
  // str(n) for an int

  function DigitChar(d: nat): (c: char)
    requires d < 10
    ensures IsDigit(c)
  {
    ('0' as int + d) as char
  }

  function DigitValue(c: char): (d: nat)
    ensures d < 10
  {
    if IsDigit(c) then c as int - '0' as int else 0
  }

  function NatToString(n: nat): (r: string)
    ensures |r| >= 1
    ensures forall i :: 0 <= i < |r| ==> IsDigit(r[i])
  {
    if n < 10 then [DigitChar(n)] else NatToString(n / 10) + [DigitChar(n % 10)]
  }

  /** `str(i)`, or `f"{i}"`: decimal digits with a leading `-` when negative. */
  function IntToString(i: int): (r: string)
    ensures |r| >= 1
    ensures forall k :: 0 < k < |r| ==> IsDigit(r[k])
    ensures IsDigit(r[|r| - 1])
    ensures r[0] == '-' <==> i < 0
    ensures r[0] != '-' ==> IsDigit(r[0])
  {
    if i < 0 then "-" + NatToString(-i) else NatToString(i)
  }

  // ---------------------------------------------------------------------------
  // int(s) for a str

  function TrimStart(s: string): (r: string)
    ensures r != [] ==> !IsSpace(r[0])
  {
    if s != [] && IsSpace(s[0]) then TrimStart(s[1..]) else s
  }

  function TrimEnd(s: string): (r: string)
    ensures r != [] ==> !IsSpace(r[|r| - 1])
  {
    if s != [] && IsSpace(s[|s| - 1]) then TrimEnd(s[..|s| - 1]) else s
  }

  /** The digit part that `int()` accepts: digits, with single underscores between digits. */
  predicate ValidDigits(s: string)
  {
    && |s| > 0
    && IsDigit(s[0])
    && IsDigit(s[|s| - 1])
    && (forall i :: 0 <= i < |s| ==> IsDigit(s[i]) || s[i] == '_')
    && (forall i :: 0 <= i < |s| - 1 && s[i] == '_' ==> s[i + 1] != '_')
  }

  function DigitsValue(s: string): nat
  {
    if s == [] then 0
    else if s[|s| - 1] == '_' then DigitsValue(s[..|s| - 1])
    else DigitsValue(s[..|s| - 1]) * 10 + DigitValue(s[|s| - 1])
  }

  /** `int(s)`: `None` where Python raises ValueError. */
  function ParseInt(s: string): (r: Option<int>)
    ensures r.Some? ==> exists k :: 0 <= k < |s| && IsDigit(s[k])
  {
    var t := TrimEnd(TrimStart(s));
    TrimmedIsInfix(s);
    if |t| > 0 && (t[0] == '+' || t[0] == '-') then
      var body := t[1..];
      if ValidDigits(body) then
        assert IsDigit(t[1]);
        var magnitude: int := DigitsValue(body);
        Some(if t[0] == '-' then -magnitude else magnitude)
      else None
    else if ValidDigits(t) then
      Some(DigitsValue(t))
    else None
  }

  /** Trimming the start drops the first `k` characters. */
  lemma {:induction false} TrimStartIsSuffix(s: string) returns (k: nat)
    ensures k <= |s| && TrimStart(s) == s[k..]
  {
    if s != [] && IsSpace(s[0]) {
      var k' := TrimStartIsSuffix(s[1..]);
      assert s[1..][k'..] == s[k' + 1..];
      k := k' + 1;
    } else {
      k := 0;
    }
  }

  /** Trimming the end keeps the first `k` characters. */
  lemma {:induction false} TrimEndIsPrefix(s: string) returns (k: nat)
    ensures k <= |s| && TrimEnd(s) == s[..k]
  {
    if s != [] && IsSpace(s[|s| - 1]) {
      k := TrimEndIsPrefix(s[..|s| - 1]);
      assert s[..|s| - 1][..k] == s[..k];
    } else {
      k := |s|;
    }
  }

  lemma TrimmedIsInfix(s: string)
    ensures forall j :: 0 <= j < |TrimEnd(TrimStart(s))| ==> TrimEnd(TrimStart(s))[j] in s
  {
    var a := TrimStartIsSuffix(s);
    var b := TrimEndIsPrefix(TrimStart(s));
    var t := TrimEnd(TrimStart(s));
    assert t == s[a..][..b];
    forall j | 0 <= j < |t| ensures t[j] in s {
      assert t[j] == s[a + j];
    }
  }

  lemma {:induction false} DigitsValueOfNat(n: nat)
    ensures DigitsValue(NatToString(n)) == n
  {
    if n >= 10 {
      DigitsValueOfNat(n / 10);
      var s := NatToString(n);
      assert s[..|s| - 1] == NatToString(n / 10);
    }
  }

  lemma ValidDigitsOfNat(n: nat)
    ensures ValidDigits(NatToString(n))
  {
  }

  lemma TrimIdentity(s: string)
    requires s != [] && !IsSpace(s[0]) && !IsSpace(s[|s| - 1])
    ensures TrimEnd(TrimStart(s)) == s
  {
  }

  /** `int(str(i)) == i`: the integer parser inverts the decimal printer. */
  lemma IntRoundTrip(i: int)
    ensures ParseInt(IntToString(i)) == Some(i)
  {
    var s := IntToString(i);
    TrimIdentity(s);
    assert TrimEnd(TrimStart(s)) == s;
    if i < 0 {
      var n: nat := -i;
      assert s[1..] == NatToString(n);
      DigitsValueOfNat(n);
      ValidDigitsOfNat(n);
      assert s[0] == '-';
    } else {
      DigitsValueOfNat(i);
      ValidDigitsOfNat(i);
      assert s == NatToString(i);
      assert IsDigit(s[0]);
    }
  }
}
