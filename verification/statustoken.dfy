/**
 Reducing a vendor's status text to a comparable token, and the shape such tokens have.
 */
module StatusTokens {
  import opened Text

  predicate TokenChar(c: char) {
    'a' <= c <= 'z' || '0' <= c <= '9'
  }

  // Every maximal run of other characters becomes one underscore.
  function Squeeze(s: string, inRun: bool): string {
    if s == [] then ""
    else if TokenChar(s[0]) then [s[0]] + Squeeze(s[1..], false)
    else if inRun then Squeeze(s[1..], true)
    else "_" + Squeeze(s[1..], true)
  }

  function TrimLeft(s: string): string {
    if s != [] && s[0] == '_' then TrimLeft(s[1..]) else s
  }

  function TrimRight(s: string): string {
    if s != [] && s[|s| - 1] == '_' then TrimRight(s[..|s| - 1]) else s
  }

  function StatusToken(raw: string): string {
    TrimRight(TrimLeft(Squeeze(Lower(Strip(raw)), false)))
  }

  // Token characters and lone underscores.
  predicate Spaced(t: string) {
    && (forall i :: 0 <= i < |t| ==> TokenChar(t[i]) || t[i] == '_')
    && (forall i :: 0 <= i < |t| - 1 ==> t[i] != '_' || t[i + 1] != '_')
  }

  predicate WellFormedToken(t: string) {
    Spaced(t) && (t != [] ==> t[0] != '_' && t[|t| - 1] != '_')
  }

  lemma {:induction false} SqueezeSpaced(s: string, inRun: bool)
    ensures Spaced(Squeeze(s, inRun))
    ensures inRun ==> Squeeze(s, inRun) == [] || Squeeze(s, inRun)[0] != '_'
  {
    if s != [] {
      SqueezeSpaced(s[1..], !TokenChar(s[0]));
    }
  }

  lemma {:induction false} TrimLeftKeeps(s: string)
    requires Spaced(s)
    ensures Spaced(TrimLeft(s))
    ensures TrimLeft(s) == [] || TrimLeft(s)[0] != '_'
  {
    if s != [] && s[0] == '_' {
      TrimLeftKeeps(s[1..]);
    }
  }

  lemma {:induction false} TrimRightKeeps(s: string)
    requires Spaced(s)
    ensures Spaced(TrimRight(s)) && TrimRight(s) <= s
    ensures TrimRight(s) == [] || TrimRight(s)[|TrimRight(s)| - 1] != '_'
  {
    if s != [] && s[|s| - 1] == '_' {
      TrimRightKeeps(s[..|s| - 1]);
    }
  }

  lemma StatusTokenWellFormed(raw: string)
    ensures WellFormedToken(StatusToken(raw))
  {
    var s := Squeeze(Lower(Strip(raw)), false);
    SqueezeSpaced(Lower(Strip(raw)), false);
    TrimLeftKeeps(s);
    TrimRightKeeps(TrimLeft(s));
  }

  lemma {:induction false} SqueezeFixed(t: string, inRun: bool)
    requires Spaced(t) && (inRun && t != [] ==> t[0] != '_')
    ensures Squeeze(t, inRun) == t
  {
    if t != [] {
      assert |t| > 1 ==> t[0] != '_' || t[1] != '_';
      SqueezeFixed(t[1..], !TokenChar(t[0]));
      assert t == [t[0]] + t[1..];
    }
  }

  lemma StatusTokenFixed(t: string)
    requires WellFormedToken(t)
    ensures StatusToken(t) == t
  {
    StripFixed(t);
    assert forall i :: 0 <= i < |t| ==> Lower(t)[i] == t[i];
    assert Lower(t) == t;
    SqueezeFixed(t, false);
  }

  lemma StatusTokenIdempotent(raw: string)
    ensures StatusToken(StatusToken(raw)) == StatusToken(raw)
  {
    StatusTokenWellFormed(raw);
    StatusTokenFixed(StatusToken(raw));
  }

  // A text that is a token but for its case has that token.
  lemma StatusTokenOfUpper(raw: string)
    requires WellFormedToken(Lower(raw))
    ensures StatusToken(raw) == Lower(raw)
  {
    if raw != [] {
      assert Lower(raw)[0] == LowerChar(raw[0]) && Lower(raw)[|raw| - 1] == LowerChar(raw[|raw| - 1]);
    }
    StripFixed(raw);
    StripFixed(Lower(raw));
    assert Lower(Lower(raw)) == Lower(raw);
    StatusTokenFixed(Lower(raw));
  }

  // Cutting a token at its underscores yields non-empty words of token characters.
  lemma {:induction false} TokenParts(t: string)
    requires WellFormedToken(t) && t != []
    ensures forall p :: p in Split(t, '_') ==> p != [] && forall c :: c in p ==> TokenChar(c)
  {
    var parts := Split(t, '_');
    JoinSplit(t, '_');
    PartsOf(parts);
  }

  lemma {:induction false} PartsOf(parts: seq<string>)
    requires |parts| >= 1 && forall p :: p in parts ==> '_' !in p
    requires WellFormedToken(Join(parts, "_")) && Join(parts, "_") != []
    ensures forall p :: p in parts ==> p != [] && forall c :: c in p ==> TokenChar(c)
  {
    var t := Join(parts, "_");
    var head := parts[0];
    if |parts| > 1 {
      var rest := Join(parts[1..], "_");
      assert t == head + "_" + rest;
      assert t[|head|] == '_';
      assert |head| != 0 && |head| != |t| - 1;
      assert forall i :: 0 <= i < |rest| ==> rest[i] == t[|head| + 1 + i];
      assert rest != [] ==> rest[0] == t[|head| + 1];
      PartsOf(parts[1..]);
      assert forall p :: p in parts <==> p == head || p in parts[1..];
    }
    forall c | c in head ensures TokenChar(c) {
      var i :| 0 <= i < |head| && head[i] == c;
      assert t[i] == c;
    }
  }

  // -- what a token keeps of the text ------------------------------------------------------------

  predicate Alphanumeric(c: char) {
    'a' <= c <= 'z' || 'A' <= c <= 'Z' || IsDigit(c)
  }

  // The longest stretches of letters and digits, in order.
  function Runs(s: string): (runs: seq<string>)
    ensures s != [] && Alphanumeric(s[0]) ==> runs != []
  {
    if s == [] then []
    else
      var rest := Runs(s[1..]);
      if !Alphanumeric(s[0]) then rest
      else if |s| > 1 && Alphanumeric(s[1]) then [[s[0]] + rest[0]] + rest[1..]
      else [[s[0]]] + rest
  }

  lemma {:induction false} RunsMeans(s: string)
    ensures forall r :: r in Runs(s) ==> r != [] && forall c :: c in r ==> Alphanumeric(c) && c in s
  {
    if s != [] {
      RunsMeans(s[1..]);
      var rest := Runs(s[1..]);
      forall r | r in Runs(s) ensures r != [] && forall c :: c in r ==> Alphanumeric(c) && c in s {
        assert forall c :: c in s[1..] ==> c in s;
        if Alphanumeric(s[0]) && r == Runs(s)[0] {
          assert rest != [] ==> rest[0] in rest;
          assert r == [s[0]] || (rest != [] && r == [s[0]] + rest[0]);
        } else {
          assert r in rest;
        }
      }
    }
  }

  lemma {:induction false} RunsOfLower(s: string)
    ensures Runs(Lower(s)) == LowerEach(Runs(s))
  {
    if s != [] {
      RunsOfLower(s[1..]);
      assert Lower(s)[1..] == Lower(s[1..]);
      assert Alphanumeric(LowerChar(s[0])) <==> Alphanumeric(s[0]);
      assert |s| > 1 ==> (Alphanumeric(LowerChar(s[1])) <==> Alphanumeric(s[1]));
      var rest := Runs(s[1..]);
      if Alphanumeric(s[0]) && |s| > 1 && Alphanumeric(s[1]) {
        assert Lower([s[0]] + rest[0]) == [LowerChar(s[0])] + Lower(rest[0]);
      } else if Alphanumeric(s[0]) {
        assert Lower([s[0]]) == [LowerChar(s[0])];
      }
    }
  }

  // Surroundings without letters or digits add no run.
  lemma {:induction false} RunsBefore(left: string, s: string)
    requires forall c :: c in left ==> !Alphanumeric(c)
    ensures Runs(left + s) == Runs(s)
  {
    if left == [] {
      assert left + s == s;
    } else {
      assert (left + s)[1..] == left[1..] + s;
      RunsBefore(left[1..], s);
    }
  }

  lemma {:induction false} RunsAfter(s: string, right: string)
    requires forall c :: c in right ==> !Alphanumeric(c)
    ensures Runs(s + right) == Runs(s)
  {
    if s == [] {
      RunsBefore(right, "");
      assert s + right == right + "";
    } else {
      RunsAfter(s[1..], right);
      assert (s + right)[1..] == s[1..] + right;
    }
  }

  lemma RunsOfStrip(s: string)
    ensures Runs(Strip(s)) == Runs(s)
  {
    var left, right := StripMeans(s);
    RunsAfter(Strip(s), right);
    RunsBefore(left, Strip(s) + right);
    assert s == left + (Strip(s) + right);
  }

  // What is left of a text squeezed behind an underscore: its runs joined, and an underscore for what trails.
  function Trailing(s: string): string {
    if s != [] && !TokenChar(s[|s| - 1]) && Runs(s) != [] then "_" else ""
  }

  predicate Lowered(s: string) {
    forall c :: c in s ==> !('A' <= c <= 'Z')
  }

  lemma {:induction false} NoRuns(s: string)
    requires Lowered(s) && Runs(s) == []
    ensures s != [] ==> !TokenChar(s[|s| - 1])
  {
    if |s| > 1 {
      assert forall c :: c in s[1..] ==> c in s;
      NoRuns(s[1..]);
    }
  }

  lemma {:induction false} SqueezeJoinsRuns(s: string)
    requires Lowered(s)
    ensures Squeeze(s, true) == Join(Runs(s), "_") + Trailing(s)
  {
    if s == [] {
    } else {
      assert forall c :: c in s[1..] ==> c in s;
      SqueezeJoinsRuns(s[1..]);
      assert s[0] in s;
      if !TokenChar(s[0]) {
        assert Runs(s) == Runs(s[1..]);
        assert |s| > 1 ==> s[1..][|s| - 2] == s[|s| - 1];
      } else if |s| == 1 {
        assert s[1..] == [] && Runs(s) == [[s[0]]] + [];
      } else if TokenChar(s[1]) {
        JoinGrows(s[0], Runs(s[1..]));
      } else {
        SqueezeJoinsGap(s);
      }
    }
  }

  lemma JoinGrows(c: char, parts: seq<string>)
    requires parts != []
    ensures Join([[c] + parts[0]] + parts[1..], "_") == [c] + Join(parts, "_")
  {
    if |parts| > 1 {
      assert ([[c] + parts[0]] + parts[1..])[1..] == parts[1..];
    }
  }

  lemma SqueezeJoinsGap(s: string)
    requires |s| > 1 && Lowered(s) && TokenChar(s[0]) && !TokenChar(s[1])
    requires Squeeze(s[1..], true) == Join(Runs(s[1..]), "_") + Trailing(s[1..])
    ensures Squeeze(s, true) == Join(Runs(s), "_") + Trailing(s)
  {
    var t := s[1..];
    var runs := Runs(t);
    assert forall c :: c in t ==> c in s;
    assert t[|t| - 1] == s[|s| - 1];
    RunsAcrossGap(s);
    SqueezeAcrossGap(s);
    if runs == [] {
      NoRuns(t);
      assert [[s[0]]] + runs == [[s[0]]];
    } else {
      assert ([[s[0]]] + runs)[1..] == runs;
      assert Join([[s[0]]] + runs, "_") == [s[0]] + "_" + Join(runs, "_");
    }
  }

  lemma RunsAcrossGap(s: string)
    requires |s| > 1 && Lowered(s) && TokenChar(s[0]) && !TokenChar(s[1])
    ensures Runs(s) == [[s[0]]] + Runs(s[1..])
  {
    assert s[1] in s;
  }

  lemma SqueezeAcrossGap(s: string)
    requires |s| > 1 && TokenChar(s[0]) && !TokenChar(s[1])
    ensures Squeeze(s, true) == [s[0]] + "_" + Squeeze(s[1..], true)
  {
    assert s[1..][0] == s[1];
    assert Squeeze(s[1..], false) == "_" + Squeeze(s[1..][1..], true);
    assert Squeeze(s[1..], true) == Squeeze(s[1..][1..], true);
  }

  lemma TrimLeftOfSqueeze(s: string)
    ensures TrimLeft(Squeeze(s, false)) == Squeeze(s, true)
  {
    SqueezeSpaced(s, true);
    if s != [] && !TokenChar(s[0]) {
      SqueezeSpaced(s[1..], true);
      assert ("_" + Squeeze(s[1..], true))[1..] == Squeeze(s[1..], true);
    }
  }

  lemma {:induction false} JoinEnds(parts: seq<string>)
    requires parts != [] && forall p :: p in parts ==> p != [] && '_' !in p
    ensures Join(parts, "_") != [] && Join(parts, "_")[|Join(parts, "_")| - 1] != '_'
  {
    assert parts[0] in parts;
    if |parts| > 1 {
      assert forall p :: p in parts[1..] ==> p in parts;
      JoinEnds(parts[1..]);
    } else {
      assert parts[0] != [] && parts[0][|parts[0]| - 1] in parts[0];
    }
  }

  lemma LowerLowered(s: string)
    ensures Lowered(Lower(s))
  {
    forall c | c in Lower(s) ensures !('A' <= c <= 'Z') {
      var i :| 0 <= i < |s| && Lower(s)[i] == c;
    }
  }

  lemma RunsPlain(s: string)
    ensures forall r :: r in Runs(s) ==> r != [] && '_' !in r
  {
    RunsMeans(s);
  }

  // A token is the runs of letters and digits of the text, lowered, with single underscores between them.
  lemma StatusTokenJoinsRuns(raw: string)
    ensures StatusToken(raw) == Join(LowerEach(Runs(raw)), "_")
  {
    var bare := Strip(raw);
    LowerLowered(bare);
    RunsOfLower(bare);
    RunsOfStrip(raw);
    TrimmedJoinsRuns(Lower(bare));
  }

  lemma TrimmedJoinsRuns(t: string)
    requires Lowered(t)
    ensures TrimRight(TrimLeft(Squeeze(t, false))) == Join(Runs(t), "_")
  {
    TrimLeftOfSqueeze(t);
    SqueezeJoinsRuns(t);
    RunsPlain(t);
    if Runs(t) != [] {
      JoinEnds(Runs(t));
    }
    TrimTrailing(Join(Runs(t), "_"), Trailing(t));
  }

  lemma TrimTrailing(joined: string, trailing: string)
    requires joined == "" || joined[|joined| - 1] != '_'
    requires trailing == "" || trailing == "_"
    ensures TrimRight(joined + trailing) == joined
  {
    if trailing == "" {
      assert joined + trailing == joined;
    } else {
      assert (joined + trailing)[..|joined|] == joined;
    }
  }

  lemma SameParts(a: seq<string>, b: seq<string>)
    requires forall p :: p in a || p in b ==> p != [] && '_' !in p
    ensures Join(a, "_") == Join(b, "_") <==> a == b
  {
    assert "_" == ['_'];
    if a != [] {
      JoinEnds(a);
      SplitJoin(a, '_');
    }
    if b != [] {
      JoinEnds(b);
      SplitJoin(b, '_');
    }
  }

  // Two texts have one token if and only if their runs of letters and digits agree without regard to case.
  lemma SameTokenExactly(a: string, b: string)
    ensures StatusToken(a) == StatusToken(b) <==>
      |Runs(a)| == |Runs(b)| && forall i :: 0 <= i < |Runs(a)| ==> SameWithoutCase(Runs(a)[i], Runs(b)[i])
  {
    StatusTokenJoinsRuns(a);
    StatusTokenJoinsRuns(b);
    RunsOfLower(a);
    RunsOfLower(b);
    RunsPlain(Lower(a));
    RunsPlain(Lower(b));
    SameParts(LowerEach(Runs(a)), LowerEach(Runs(b)));
    forall i | 0 <= i < |Runs(a)| && i < |Runs(b)|
      ensures Lower(Runs(a)[i]) == Lower(Runs(b)[i]) <==> SameWithoutCase(Runs(a)[i], Runs(b)[i])
    {
      CaseForgotten(Runs(a)[i], Runs(b)[i]);
    }
    if LowerEach(Runs(a)) == LowerEach(Runs(b)) {
      forall i | 0 <= i < |Runs(a)| ensures Lower(Runs(a)[i]) == Lower(Runs(b)[i]) {
        assert LowerEach(Runs(a))[i] == LowerEach(Runs(b))[i];
      }
    }
  }
}
