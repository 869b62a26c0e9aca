/** String helpers with the semantics of the Python built-ins the portal uses:
    `str(int)`, `sep.join`, `str.split`, `str.strip` and string comparison. */
module Text {

  predicate IsDigit(c: char) { '0' <= c <= '9' }

  predicate AllDigits(s: string) { forall i :: 0 <= i < |s| ==> IsDigit(s[i]) }

  /** `str(n)` for a non-negative integer: decimal digits, no leading zeros. */
  function NatToString(n: nat): (s: string)
    ensures |s| > 0 && AllDigits(s)
    ensures n < 10 <==> |s| == 1
    decreases n
  {
    if n < 10 then [Digit(n)] else NatToString(n / 10) + [Digit(n % 10)]
  }

  function Digit(d: nat): (c: char)
    requires d < 10
    ensures IsDigit(c)
  {
    ['0', '1', '2', '3', '4', '5', '6', '7', '8', '9'][d]
  }

  /** `int(s)` on a string of decimal digits. */
  function ParseNat(s: string): nat
    requires AllDigits(s)
  {
    if s == [] then 0 else 10 * ParseNat(s[..|s| - 1]) + ((s[|s| - 1] as int) - ('0' as int))
  }

  /** `int(str(n)) == n`. */
  lemma {:induction false} ParseNatToString(n: nat)
    ensures ParseNat(NatToString(n)) == n
    decreases n
  {
    if n >= 10 {
      var s := NatToString(n);
      assert s[..|s| - 1] == NatToString(n / 10);
      ParseNatToString(n / 10);
    }
  }

  /** `sep.join(items)`. */
  function Join(items: seq<string>, sep: string): string
  {
    if items == [] then ""
    else if |items| == 1 then items[0]
    else items[0] + sep + Join(items[1..], sep)
  }

  /** `w in s` for strings: `w` occurs as a contiguous piece of `s`. */
  ghost predicate Occurs(w: string, s: string)
  {
    exists k :: OccursAt(w, s, k)
  }

  predicate OccursAt(w: string, s: string, k: int)
  {
    0 <= k <= |s| - |w| && s[k..k + |w|] == w
  }

  lemma OccursInLonger(w: string, a: string, s: string, b: string)
    requires Occurs(w, s)
    ensures Occurs(w, a + s + b)
  {
    var k :| OccursAt(w, s, k);
    assert (a + s + b)[|a| + k..|a| + k + |w|] == w;
    assert OccursAt(w, a + s + b, |a| + k);
  }

  /** Every joined item can be found again in the joined text. */
  lemma {:induction false} JoinContainsItems(items: seq<string>, sep: string, i: nat)
    requires i < |items|
    ensures Occurs(items[i], Join(items, sep))
  {
    if |items| == 1 {
      assert Join(items, sep)[0..|items[0]|] == items[0];
      assert OccursAt(items[i], Join(items, sep), 0);
    } else if i == 0 {
      var j := Join(items, sep);
      assert j == items[0] + (sep + Join(items[1..], sep));
      assert j[0..|items[0]|] == items[0];
      assert OccursAt(items[i], j, 0);
    } else {
      JoinContainsItems(items[1..], sep, i - 1);
      OccursInLonger(items[i], items[0] + sep, Join(items[1..], sep), "");
      assert items[0] + sep + Join(items[1..], sep) + "" == Join(items, sep);
    }
  }

  /** `s.split(c)` for a one-character separator. */
  function Split(s: string, c: char): (parts: seq<string>)
    ensures |parts| >= 1
    ensures forall i :: 0 <= i < |parts| ==> c !in parts[i]
  {
    if s == [] then [""]
    else
      var rest := Split(s[1..], c);
      if s[0] == c then [""] + rest else [[s[0]] + rest[0]] + rest[1..]
  }

  /** Splitting and joining again with the same separator gives back the text. */
  lemma {:induction false} JoinSplit(s: string, c: char)
    ensures Join(Split(s, c), [c]) == s
  {
    if s != [] {
      var rest := Split(s[1..], c);
      JoinSplit(s[1..], c);
      if s[0] == c {
        assert Split(s, c) == [""] + rest;
        assert s == "" + [c] + s[1..];
      } else if |rest| == 1 {
        assert Split(s, c) == [[s[0]] + rest[0]];
      } else {
        var parts := Split(s, c);
        assert parts[1..] == rest[1..];
        assert Join(rest, [c]) == rest[0] + [c] + Join(rest[1..], [c]);
      }
    }
  }

  /** Text without the separator splits into itself alone. */
  lemma {:induction false} SplitWithoutSeparator(s: string, c: char)
    requires c !in s
    ensures Split(s, c) == [s]
  {
    if s != [] {
      SplitWithoutSeparator(s[1..], c);
      assert [s[0]] + s[1..] == s;
    }
  }

  /** The first piece ends at the first separator. */
  lemma {:induction false} SplitAtFirst(a: string, b: string, c: char)
    requires c !in a
    ensures Split(a + [c] + b, c) == [a] + Split(b, c)
  {
    if a == [] {
      assert a + [c] + b == [c] + b;
      assert ([c] + b)[1..] == b;
    } else {
      SplitAtFirst(a[1..], b, c);
      assert (a + [c] + b)[1..] == a[1..] + [c] + b;
      assert [a[0]] + a[1..] == a;
    }
  }

  /** The characters `str.strip()` removes (Unicode whitespace beyond Latin-1 is not modelled). */
  predicate IsSpace(ch: char)
  {
    ch == ' ' || ch == '\t' || ch == '\n' || ch == '\r' || ch == '\U{000B}' || ch == '\U{000C}'
    || ('\U{001C}' <= ch <= '\U{001F}') || ch == '\U{0085}' || ch == '\U{00A0}'
  }

  predicate AllSpace(s: string) { forall i :: 0 <= i < |s| ==> IsSpace(s[i]) }

  function StripLeft(s: string): (r: string)
    ensures r == [] || !IsSpace(r[0])
    ensures exists a :: AllSpace(a) && s == a + r
  {
    if s == [] then
      assert AllSpace([]) && s == [] + s;
      s
    else if IsSpace(s[0]) then
      var r := StripLeft(s[1..]);
      var a :| AllSpace(a) && s[1..] == a + r;
      assert AllSpace([s[0]] + a) && s == ([s[0]] + a) + r;
      r
    else
      assert AllSpace([]) && s == [] + s;
      s
  }

  function StripRight(s: string): (r: string)
    ensures r == [] || !IsSpace(r[|r| - 1])
    ensures exists b :: AllSpace(b) && s == r + b
  {
    if s == [] then
      assert AllSpace([]) && s == s + [];
      s
    else if IsSpace(s[|s| - 1]) then
      var r := StripRight(s[..|s| - 1]);
      var b :| AllSpace(b) && s[..|s| - 1] == r + b;
      assert AllSpace(b + [s[|s| - 1]]) && s == r + (b + [s[|s| - 1]]);
      r
    else
      assert AllSpace([]) && s == s + [];
      s
  }

  /** `s.strip()`: `s` without its leading and trailing whitespace. */
  function Strip(s: string): (r: string)
    ensures r == [] || (!IsSpace(r[0]) && !IsSpace(r[|r| - 1]))
    ensures exists a, b :: AllSpace(a) && AllSpace(b) && s == a + r + b
  {
    var l := StripLeft(s);
    var r := StripRight(l);
    var a :| AllSpace(a) && s == a + l;
    var b :| AllSpace(b) && l == r + b;
    assert s == a + r + b;
    assert r != [] ==> r[0] == l[0];
    r
  }

  /** Python's `a < b` on strings: lexicographic by code point. */
  predicate StrLt(a: string, b: string)
  {
    if a == [] then b != []
    else if b == [] then false
    else if a[0] != b[0] then a[0] < b[0]
    else StrLt(a[1..], b[1..])
  }

  lemma {:induction false} StrLtIrreflexive(a: string)
    ensures !StrLt(a, a)
  {
    if a != [] { StrLtIrreflexive(a[1..]); }
  }

  lemma {:induction false} StrLtTransitive(a: string, b: string, c: string)
    requires StrLt(a, b) && StrLt(b, c)
    ensures StrLt(a, c)
  {
    if a != [] && b != [] && c != [] && a[0] == b[0] && b[0] == c[0] {
      StrLtTransitive(a[1..], b[1..], c[1..]);
    }
  }

  lemma {:induction false} StrLtTotal(a: string, b: string)
    ensures a == b || StrLt(a, b) || StrLt(b, a)
  {
    if a != [] && b != [] && a[0] == b[0] {
      StrLtTotal(a[1..], b[1..]);
      if a[1..] == b[1..] {
        assert a == [a[0]] + a[1..] && b == [b[0]] + b[1..];
      }
    }
  }

  /** `a <= b` on strings. */
  predicate StrLe(a: string, b: string) { !StrLt(b, a) }

  lemma StrLeTransitive(a: string, b: string, c: string)
    requires StrLe(a, b) && StrLe(b, c)
    ensures StrLe(a, c)
  {
    StrLtTotal(a, b);
    StrLtTotal(b, c);
    if StrLt(c, a) {
      if a == b { } else if b == c { } else {
        StrLtTransitive(a, b, c);
        StrLtTransitive(c, a, c);
        StrLtIrreflexive(c);
      }
    }
  }
}
