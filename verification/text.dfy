/**
 String operations of the host language that the gateway relies on, over ASCII: lowering, stripping,
 splitting, joining, substring search, decimal rendering and the ordering used when sorting text.
 */
module Text {

  function LowerChar(c: char): char {
    if 'A' <= c <= 'Z' then (c as int + 32) as char else c
  }

  function Lower(s: string): (r: string)
    ensures |r| == |s|
    ensures forall i :: 0 <= i < |s| ==> r[i] == LowerChar(s[i])
  {
    seq(|s|, i requires 0 <= i < |s| => LowerChar(s[i]))
  }

  function UpperChar(c: char): char {
    if 'a' <= c <= 'z' then (c as int - 32) as char else c
  }

  function Upper(s: string): (r: string)
    ensures |r| == |s|
    ensures forall i :: 0 <= i < |s| ==> r[i] == UpperChar(s[i])
  {
    seq(|s|, i requires 0 <= i < |s| => UpperChar(s[i]))
  }

  function LowerEach(words: seq<string>): seq<string> {
    seq(|words|, i requires 0 <= i < |words| => Lower(words[i]))
  }

  // The same character, or the same letter in the other case.
  predicate SameLetter(c: char, d: char) {
    || c == d
    || ('A' <= c <= 'Z' && d as int == c as int + 32)
    || ('A' <= d <= 'Z' && c as int == d as int + 32)
  }

  predicate SameWithoutCase(a: string, b: string) {
    |a| == |b| && forall i :: 0 <= i < |a| ==> SameLetter(a[i], b[i])
  }

  // Lowering, or raising, forgets the case and nothing else.
  lemma CaseForgotten(a: string, b: string)
    ensures Lower(a) == Lower(b) <==> SameWithoutCase(a, b)
    ensures Upper(a) == Upper(b) <==> SameWithoutCase(a, b)
    ensures SameWithoutCase(a, Lower(a)) && SameWithoutCase(a, Upper(a))
  {
    if Lower(a) == Lower(b) {
      forall i | 0 <= i < |a| ensures SameLetter(a[i], b[i]) {
        assert Lower(a)[i] == Lower(b)[i];
      }
    }
    if Upper(a) == Upper(b) {
      forall i | 0 <= i < |a| ensures SameLetter(a[i], b[i]) {
        assert Upper(a)[i] == Upper(b)[i];
      }
    }
  }

  predicate IsSpace(c: char) {
    c == ' ' || c == '\t' || c == '\n' || c == '\r'
  }

  predicate IsDigit(c: char) {
    '0' <= c <= '9'
  }

  function StripLeft(s: string): (r: string)
    ensures r == [] || !IsSpace(r[0])
  {
    if s != [] && IsSpace(s[0]) then StripLeft(s[1..]) else s
  }

  function StripRight(s: string): (r: string)
    ensures r == [] || (s != [] && r[0] == s[0] && !IsSpace(r[|r| - 1]))
  {
    if s != [] && IsSpace(s[|s| - 1]) then StripRight(s[..|s| - 1]) else s
  }

  function Strip(s: string): (r: string)
    ensures r == [] || (!IsSpace(r[0]) && !IsSpace(r[|r| - 1]))
  {
    StripRight(StripLeft(s))
  }

  // A string with no outer white space is what Strip leaves alone.
  lemma StripFixed(s: string)
    requires s == [] || (!IsSpace(s[0]) && !IsSpace(s[|s| - 1]))
    ensures Strip(s) == s
  {
  }

  // Stripping takes white space from both ends and leaves the rest as it is.
  lemma StripMeans(s: string) returns (left: string, right: string)
    ensures s == left + Strip(s) + right
    ensures forall c :: c in left || c in right ==> IsSpace(c)
  {
    left := StrippedLeft(s);
    right := StrippedRight(StripLeft(s));
    assert s == left + (Strip(s) + right);
  }

  lemma {:induction false} StrippedLeft(s: string) returns (left: string)
    ensures s == left + StripLeft(s) && forall c :: c in left ==> IsSpace(c)
  {
    left := "";
    if s != [] && IsSpace(s[0]) {
      var rest := StrippedLeft(s[1..]);
      left := [s[0]] + rest;
      assert s == [s[0]] + s[1..];
    }
  }

  lemma {:induction false} StrippedRight(s: string) returns (right: string)
    ensures s == StripRight(s) + right && forall c :: c in right ==> IsSpace(c)
  {
    right := "";
    if s != [] && IsSpace(s[|s| - 1]) {
      var rest := StrippedRight(s[..|s| - 1]);
      right := rest + [s[|s| - 1]];
      assert s == s[..|s| - 1] + [s[|s| - 1]];
    }
  }

  function Split(s: string, sep: char): (parts: seq<string>)
    ensures |parts| >= 1
    ensures forall p :: p in parts ==> sep !in p
    ensures sep in s ==> |parts| >= 2
  {
    if s == [] then [""]
    else
      var rest := Split(s[1..], sep);
      if s[0] == sep then [""] + rest else [[s[0]] + rest[0]] + rest[1..]
  }

  function Join(parts: seq<string>, sep: string): string {
    if |parts| == 0 then ""
    else if |parts| == 1 then parts[0]
    else parts[0] + sep + Join(parts[1..], sep)
  }

  lemma {:induction false} JoinSplit(s: string, sep: char)
    ensures Join(Split(s, sep), [sep]) == s
  {
    if s == [] {
    } else {
      JoinSplit(s[1..], sep);
      var rest := Split(s[1..], sep);
      if s[0] == sep {
        assert ([""] + rest)[1..] == rest;
      } else if |rest| > 1 {
        assert ([[s[0]] + rest[0]] + rest[1..])[1..] == rest[1..];
      }
    }
  }

  lemma {:induction false} SplitOne(s: string, sep: char)
    requires sep !in s
    ensures Split(s, sep) == [s]
  {
    if s != [] {
      assert forall c :: c in s[1..] ==> c in s;
      SplitOne(s[1..], sep);
      assert [s[0]] + s[1..] == s;
    }
  }

  // A separator starts a new part: what precedes it, then the split of the rest.
  lemma {:induction false} SplitAt(a: string, sep: char, b: string)
    requires sep !in a
    ensures Split(a + [sep] + b, sep) == [a] + Split(b, sep)
  {
    var s := a + [sep] + b;
    if a == [] {
      assert s[1..] == b;
    } else {
      assert s[1..] == a[1..] + [sep] + b;
      assert forall c :: c in a[1..] ==> c in a;
      SplitAt(a[1..], sep, b);
      var rest := [a[1..]] + Split(b, sep);
      assert [s[0]] + rest[0] == a;
      assert rest[1..] == Split(b, sep);
    }
  }

  lemma {:induction false} SplitJoin(parts: seq<string>, sep: char)
    requires |parts| >= 1
    requires forall p :: p in parts ==> sep !in p
    ensures Split(Join(parts, [sep]), sep) == parts
  {
    if |parts| == 1 {
      SplitOne(parts[0], sep);
    } else {
      SplitJoin(parts[1..], sep);
      SplitAt(parts[0], sep, Join(parts[1..], [sep]));
      assert Join(parts, [sep]) == parts[0] + [sep] + Join(parts[1..], [sep]);
      assert [parts[0]] + parts[1..] == parts;
    }
  }

  function LastPart(s: string, sep: char): string {
    var parts := Split(s, sep); parts[|parts| - 1]
  }

  lemma {:induction false} LastPartOf(a: string, sep: char, b: string)
    requires sep !in b
    ensures LastPart(a + [sep] + b, sep) == b
  {
    var s := a + [sep] + b;
    if sep !in a {
      SplitAt(a, sep, b);
      SplitOne(b, sep);
    } else {
      assert s[1..] == a[1..] + [sep] + b;
      LastPartOf(a[1..], sep, b);
      assert s[1..][|a| - 1] == sep;
    }
  }

  predicate OccursAt(needle: string, hay: string, i: nat) {
    i + |needle| <= |hay| && hay[i..i + |needle|] == needle
  }

  // The host language's substring test.
  predicate Occurs(needle: string, hay: string) {
    exists i :: 0 <= i <= |hay| && OccursAt(needle, hay, i)
  }

  lemma CoveredCharacter(needle: string, hay: string, i: nat, k: nat)
    requires OccursAt(needle, hay, i)
    ensures i <= k < i + |needle| ==> hay[k] in needle
  {
    assert forall j :: 0 <= j < |needle| ==> needle[j] == hay[i + j];
    if i <= k < i + |needle| {
      assert needle[k - i] == hay[k];
    }
  }

  // Where a slice of either side lies in the whole.
  lemma SlicesOfJoin(a: string, sep: char, b: string, i: nat, n: nat)
    ensures i + n <= |a| ==> (a + [sep] + b)[i..i + n] == a[i..i + n]
    ensures i + n <= |b| ==> (a + [sep] + b)[|a| + 1 + i..|a| + 1 + i + n] == b[i..i + n]
  {
    var s := a + [sep] + b;
    assert |s| == |a| + 1 + |b|;
    if i + n <= |a| {
      assert s[i..i + n] == a[i..i + n];
    }
    if i + n <= |b| {
      assert s[|a| + 1 + i..|a| + 1 + i + n] == b[i..i + n];
    }
  }

  // A needle without the separator character never straddles it.
  lemma OccursAround(needle: string, a: string, sep: char, b: string)
    requires needle != [] && sep !in needle
    ensures Occurs(needle, a + [sep] + b) <==> Occurs(needle, a) || Occurs(needle, b)
  {
    if Occurs(needle, a + [sep] + b) {
      OccursOnOneSide(needle, a, sep, b);
    }
    if Occurs(needle, a) || Occurs(needle, b) {
      OccursInWhole(needle, a, sep, b);
    }
  }

  lemma OccursOnOneSide(needle: string, a: string, sep: char, b: string)
    requires needle != [] && sep !in needle && Occurs(needle, a + [sep] + b)
    ensures Occurs(needle, a) || Occurs(needle, b)
  {
    var s := a + [sep] + b;
    var i :| 0 <= i <= |s| && OccursAt(needle, s, i);
    CoveredCharacter(needle, s, i, |a|);
    assert s[|a|] == sep;
    if i + |needle| <= |a| {
      SlicesOfJoin(a, sep, b, i, |needle|);
      assert OccursAt(needle, a, i);
    } else {
      SlicesOfJoin(a, sep, b, i - |a| - 1, |needle|);
      assert OccursAt(needle, b, i - |a| - 1);
    }
  }

  lemma OccursInWhole(needle: string, a: string, sep: char, b: string)
    requires Occurs(needle, a) || Occurs(needle, b)
    ensures Occurs(needle, a + [sep] + b)
  {
    var s := a + [sep] + b;
    if Occurs(needle, a) {
      var i :| 0 <= i <= |a| && OccursAt(needle, a, i);
      SlicesOfJoin(a, sep, b, i, |needle|);
      assert OccursAt(needle, s, i);
    } else {
      var i :| 0 <= i <= |b| && OccursAt(needle, b, i);
      SlicesOfJoin(a, sep, b, i, |needle|);
      assert OccursAt(needle, s, |a| + 1 + i);
    }
  }

  lemma {:induction false} OccursJoin(needle: string, words: seq<string>, sep: char)
    requires needle != [] && sep !in needle
    ensures Occurs(needle, Join(words, [sep])) <==> exists w :: w in words && Occurs(needle, w)
  {
    if |words| == 0 {
      assert !Occurs(needle, "");
    } else if |words| == 1 {
      assert words[0] in words;
    } else {
      OccursJoin(needle, words[1..], sep);
      OccursAround(needle, words[0], sep, Join(words[1..], [sep]));
      assert forall w :: w in words <==> w == words[0] || w in words[1..];
      assert Join(words, [sep]) == words[0] + [sep] + Join(words[1..], [sep]);
    }
  }

  function DigitChar(d: nat): char
    requires d < 10
  {
    ('0' as int + d) as char
  }

  function Decimal(n: nat): (s: string)
    ensures s != [] && forall c :: c in s ==> IsDigit(c)
  {
    if n < 10 then [DigitChar(n)] else Decimal(n / 10) + [DigitChar(n % 10)]
  }

  function DecimalValue(s: string): int {
    if s == [] then 0 else 10 * DecimalValue(s[..|s| - 1]) + (s[|s| - 1] as int - '0' as int)
  }

  lemma {:induction false} DecimalRoundTrip(n: nat)
    ensures DecimalValue(Decimal(n)) == n
  {
    var s := Decimal(n);
    if n >= 10 {
      DecimalRoundTrip(n / 10);
      assert s[..|s| - 1] == Decimal(n / 10);
    } else {
      assert DecimalValue(s[..0]) == 0;
    }
  }

  function IntText(i: int): string {
    if i < 0 then "-" + Decimal(-i) else Decimal(i)
  }

  // Two integers are written alike only if they are one.
  lemma IntTextDistinguishes(i: int, j: int)
    ensures IntText(i) == IntText(j) <==> i == j
  {
    var m, n := if i < 0 then -i else i, if j < 0 then -j else j;
    DecimalRoundTrip(m);
    DecimalRoundTrip(n);
    assert Decimal(m)[0] in Decimal(m) && Decimal(n)[0] in Decimal(n);
    assert ("-" + Decimal(m))[1..] == Decimal(m) && ("-" + Decimal(n))[1..] == Decimal(n);
  }

  // Code-point order, as used when the host language sorts strings.
  predicate StringLess(a: string, b: string) {
    b != [] && (a == [] || a[0] < b[0] || (a[0] == b[0] && StringLess(a[1..], b[1..])))
  }

  // The first difference decides, and a proper beginning comes first.
  lemma {:induction false} StringLessMeans(a: string, b: string)
    ensures StringLess(a, b) <==>
      exists i :: 0 <= i < |b| && i <= |a| && a[..i] == b[..i] && (i == |a| || a[i] < b[i])
  {
    if a != [] && b != [] && a[0] == b[0] {
      StringLessMeans(a[1..], b[1..]);
      if StringLess(a, b) {
        var i :| 0 <= i < |b[1..]| && i <= |a[1..]| && a[1..][..i] == b[1..][..i] && (i == |a[1..]| || a[1..][i] < b[1..][i]);
        assert a[..i + 1] == [a[0]] + a[1..][..i] && b[..i + 1] == [b[0]] + b[1..][..i];
      }
      if i :| 0 <= i < |b| && i <= |a| && a[..i] == b[..i] && (i == |a| || a[i] < b[i]) {
        assert i > 0;
        assert a[1..][..i - 1] == a[..i][1..] && b[1..][..i - 1] == b[..i][1..];
      }
    } else if b != [] {
      assert a[..0] == b[..0];
    }
  }

  lemma {:induction false} StringLessTransitive(a: string, b: string, c: string)
    requires StringLess(a, b) && StringLess(b, c)
    ensures StringLess(a, c)
  {
    if a != [] && a[0] == b[0] && b[0] == c[0] {
      StringLessTransitive(a[1..], b[1..], c[1..]);
    }
  }

  lemma {:induction false} StringLessConnected(a: string, b: string)
    ensures a != b ==> StringLess(a, b) || StringLess(b, a)
    ensures !StringLess(a, a)
  {
    if a != [] {
      if b != [] && a[0] == b[0] {
        StringLessConnected(a[1..], b[1..]);
        assert a == [a[0]] + a[1..] && b == [b[0]] + b[1..];
      }
      StringLessConnected(a[1..], a[1..]);
    }
  }
}
