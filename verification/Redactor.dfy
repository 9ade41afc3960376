/** The log redactor. */
module Redactor {
  // The log redactor: every known secret value in a line is replaced by a
  // placeholder, longest value first.

  import opened Text
  import opened Options

  const STARS := "***"
  const WORD := "REDACTED"
  const REDACTED := STARS + WORD + STARS
  const SHORTEST := 4

  // ------------------------------------------------------- split and replace

  /** The first position at which `v` occurs. */
  function Find(s: string, v: string): (r: Option<nat>)
    ensures r.Some? ==> r.value + |v| <= |s| && s[r.value..r.value + |v|] == v
    ensures r.None? <==> !Occurs(v, s)
  {
    if v <= s then
      assert s[0..|v|] == v;
      Some(0)
    else if s == "" then None
    else
      var r := Find(s[1..], v);
      match r
      case None => None
      case Some(i) =>
        assert s[1..][i..i + |v|] == s[1 + i..1 + i + |v|];
        Some(i + 1)
  }

  /** `s.split(v)` for a non-empty `v`. */
  function Split(s: string, v: string): (pieces: seq<string>)
    requires v != ""
    ensures pieces != []
    decreases |s|
  {
    match Find(s, v)
    case None => [s]
    case Some(i) => [s[..i]] + Split(s[i + |v|..], v)
  }

  /** `pieces.join(sep)` */
  function Join(pieces: seq<string>, sep: string): string
    requires pieces != []
  {
    if |pieces| == 1 then pieces[0] else pieces[0] + sep + Join(pieces[1..], sep)
  }

  function Replace(s: string, v: string): string
    requires v != ""
  {
    Join(Split(s, v), REDACTED)
  }

  predicate LongestFirst(values: seq<string>) {
    forall i, j :: 0 <= i < j < |values| ==> |values[i]| >= |values[j]|
  }

  function Insert(v: string, values: seq<string>): seq<string> {
    if values == [] || |v| >= |values[0]| then [v] + values else [values[0]] + Insert(v, values[1..])
  }

  /** The values that are masked, longest first; equally long ones keep their order. */
  function Masked(secrets: seq<string>): seq<string> {
    if secrets == [] then []
    else
      var rest := Masked(secrets[1..]);
      if |secrets[0]| >= SHORTEST then Insert(secrets[0], rest) else rest
  }

  lemma {:induction false} InsertPermutes(v: string, values: seq<string>)
    ensures multiset(Insert(v, values)) == multiset(values) + multiset{v}
  {
    if !(values == [] || |v| >= |values[0]|) {
      InsertPermutes(v, values[1..]);
      assert values == [values[0]] + values[1..];
    }
  }

  lemma {:induction false} InsertSorts(v: string, values: seq<string>)
    requires LongestFirst(values)
    ensures LongestFirst(Insert(v, values))
  {
    if !(values == [] || |v| >= |values[0]|) {
      InsertSorts(v, values[1..]);
      var rest := Insert(v, values[1..]);
      forall x | x in rest ensures |x| <= |values[0]| {
        InsertPermutes(v, values[1..]);
        assert x in multiset(rest);
      }
    }
  }

  function LongEnough(secrets: seq<string>): seq<string> {
    if secrets == [] then []
    else (if |secrets[0]| >= SHORTEST then [secrets[0]] else []) + LongEnough(secrets[1..])
  }

  /** The masked values are the secrets of at least four characters, longest first. */
  lemma {:induction false} MaskedIsSorted(secrets: seq<string>)
    ensures LongestFirst(Masked(secrets))
    ensures multiset(Masked(secrets)) == multiset(LongEnough(secrets))
    ensures forall v :: v in Masked(secrets) <==> v in secrets && |v| >= SHORTEST
  {
    if secrets != [] {
      MaskedIsSorted(secrets[1..]);
      if |secrets[0]| >= SHORTEST {
        InsertSorts(secrets[0], Masked(secrets[1..]));
        InsertPermutes(secrets[0], Masked(secrets[1..]));
      }
      MaskedMembers(secrets);
    }
  }

  lemma MaskedMembers(secrets: seq<string>)
    requires secrets != []
    requires forall v :: v in Masked(secrets[1..]) <==> v in secrets[1..] && |v| >= SHORTEST
    ensures forall v :: v in Masked(secrets) <==> v in secrets && |v| >= SHORTEST
  {
    InsertPermutes(secrets[0], Masked(secrets[1..]));
    forall v ensures v in Masked(secrets) <==> v in secrets && |v| >= SHORTEST {
      assert v in Masked(secrets) <==> v in multiset(Masked(secrets));
      assert v in Masked(secrets[1..]) <==> v in multiset(Masked(secrets[1..]));
      assert v in secrets <==> v == secrets[0] || v in secrets[1..];
    }
  }

  predicate NonEmpty(values: seq<string>) { forall i :: 0 <= i < |values| ==> values[i] != "" }

  /** The passes of the value loop, one after another. */
  function Passes(line: string, values: seq<string>): string
    requires NonEmpty(values)
  {
    if values == [] then line
    else Replace(Passes(line, values[..|values| - 1]), values[|values| - 1])
  }

  // --------------------------------------------------- when masking is complete

  predicate EndsWith(s: string, t: string) { |t| <= |s| && s[|s| - |t|..] == t }

  /** One of the two begins with the other. */
  predicate Agree(y: string, z: string) { y <= z || z <= y }

  /** A secret that cannot reappear around the placeholder: it is no part of it,
      does not begin with an end of it, and no end of it begins like it. */
  ghost predicate Safe(v: string) {
    && !Occurs(v, REDACTED)
    && (forall k :: 0 < k < |v| ==> !EndsWith(REDACTED, v[..k]))
    && (forall k :: 0 < k < |v| ==> !Agree(v[k..], REDACTED))
  }

  lemma OccursInEither(w: string, a: string, b: string)
    requires Safe(w) && Occurs(w, a + REDACTED + b)
    ensures Occurs(w, a) || Occurs(w, b)
  {
    var s, r := a + REDACTED + b, |REDACTED|;
    var i := OccurrenceOf(w, s);
    var end := i + |w|;
    if end <= |a| {
      assert s[i..][..|w|] == a[i..][..|w|];
      OccursAt(w, a, i);
    } else if i >= |a| + r {
      assert s[i..] == b[i - |a| - r..];
      OccursAt(w, b, i - |a| - r);
    } else {
      Straddles(w, a, b, i);
    }
  }

  /** An occurrence that touches the placeholder makes the secret unsafe. */
  lemma Straddles(w: string, a: string, b: string, i: nat)
    requires i <= |a + REDACTED + b| && w <= (a + REDACTED + b)[i..]
    requires |a| < i + |w| && i < |a| + |REDACTED|
    ensures !Safe(w)
  {
    var s, r := a + REDACTED + b, |REDACTED|;
    assert w == s[i..][..|w|] == s[i..i + |w|];
    if i < |a| {
      var k := |a| - i;
      assert w[k..] == s[|a|..i + |w|];
      assert s[|a|..] == REDACTED + b;
      assert w[k..] <= REDACTED + b by { assert s[|a|..][..|w| - k] == s[|a|..i + |w|]; }
      assert Agree(w[k..], REDACTED);
    } else if i + |w| <= |a| + r {
      assert REDACTED[i - |a|..][..|w|] == w;
      OccursAt(w, REDACTED, i - |a|);
    } else {
      var k := |a| + r - i;
      assert w[..k] == s[i..|a| + r] == REDACTED[i - |a|..];
      assert EndsWith(REDACTED, w[..k]);
    }
  }

  /** No piece holds the value, and a piece holds only what the text held. */
  lemma {:induction false} PiecesAreClean(s: string, v: string, w: string, p: string)
    requires v != "" && p in Split(s, v)
    ensures !Occurs(v, p)
    ensures Occurs(w, p) ==> Occurs(w, s)
    decreases |s|
  {
    hide Occurs, Find;
    if Find(s, v).Some? {
      var i := Find(s, v).value;
      var rest := s[i + |v|..];
      if p == s[..i] {
        BeforeFirst(s, v, i);
        assert s == "" + p + s[i..];
        if Occurs(w, p) { OccursInPart(w, "", p, s[i..]); }
      } else {
        PiecesAreClean(rest, v, w, p);
        assert s == s[..i + |v|] + rest + "";
        if Occurs(w, p) { OccursInPart(w, s[..i + |v|], rest, ""); }
      }
    }
  }

  lemma {:induction false} BeforeFirst(s: string, v: string, i: nat)
    requires v != "" && Find(s, v) == Some(i)
    ensures !Occurs(v, s[..i])
  {
    if i > 0 {
      BeforeFirst(s[1..], v, i - 1);
      assert s[..i][1..] == s[1..][..i - 1];
      assert v <= s[..i] ==> v <= s;
    }
  }

  lemma {:induction false} JoinHolds(w: string, pieces: seq<string>)
    requires Safe(w) && pieces != [] && Occurs(w, Join(pieces, REDACTED))
    ensures exists p :: p in pieces && Occurs(w, p)
  {
    if |pieces| == 1 {
      assert pieces[0] in pieces;
    } else {
      OccursInEither(w, pieces[0], Join(pieces[1..], REDACTED));
      if Occurs(w, pieces[0]) {
        assert pieces[0] in pieces;
      } else {
        JoinHolds(w, pieces[1..]);
      }
    }
  }

  /** A pass brings no safe secret back, and leaves none of its own. */
  lemma PassIsClean(s: string, v: string, w: string)
    requires v != "" && Safe(w) && Occurs(w, Replace(s, v))
    ensures w != v && Occurs(w, s)
  {
    JoinHolds(w, Split(s, v));
    var p :| p in Split(s, v) && Occurs(w, p);
    PiecesAreClean(s, v, w, p);
  }

  /** Whatever the line, none of the masked secrets, if they are all safe, is left
      anywhere in what the passes make of it. */
  lemma {:induction false} NothingIsLeft(line: string, values: seq<string>, w: string)
    requires NonEmpty(values) && w in values && Safe(w)
    ensures !Occurs(w, Passes(line, values))
  {
    var front, last := values[..|values| - 1], values[|values| - 1];
    assert values == front + [last] && last in values;
    if Occurs(w, Passes(line, values)) {
      PassIsClean(Passes(line, front), last, w);
      NothingIsLeft(line, front, w);
    }
  }

  /** Why longest first: a line that is the longest secret is masked as a whole,
      whatever shorter secrets are part of it. */
  lemma {:induction false} LongestIsMaskedWhole(values: seq<string>)
    requires values != [] && NonEmpty(values)
    requires forall i :: 0 <= i < |values| ==> !Occurs(values[i], REDACTED)
    ensures Passes(values[0], values) == REDACTED
  {
    hide Occurs, Replace, REDACTED;
    var n := |values| - 1;
    if n == 0 {
      MaskedItself(values[0]);
      assert values[..0] == [];
    } else {
      LongestIsMaskedWhole(values[..n]);
      NothingToMask(REDACTED, values[n]);
    }
  }

  lemma MaskedItself(v: string)
    requires v != ""
    ensures Replace(v, v) == REDACTED
  {
    hide REDACTED;
    assert v == "" + v + "";
    FoundFirst("", v, "");
    MaskedOnce("", v, "");
    assert "" + REDACTED + "" == REDACTED;
  }

  // ---------------------------------------- safety is exactly what masking takes

  /** With `v` first found after `x`, the pass keeps what stands around it. */
  lemma MaskedOnce(x: string, v: string, b: string)
    requires v != "" && |b| < |v| && Find(x + v + b, v) == Some(|x|)
    ensures Replace(x + v + b, v) == x + REDACTED + b
  {
    var s := x + v + b;
    assert s[..|x|] == x && s[|x| + |v|..] == b;
    assert !Occurs(v, b) by { ShortHasNone(b, v); }
    assert Split(b, v) == [b];
    assert Split(s, v) == [x] + [b];
    assert Join([b], REDACTED) == b;
    assert ([x] + [b])[1..] == [b];
  }

  lemma ShortHasNone(b: string, v: string)
    requires |b| < |v|
    ensures !Occurs(v, b)
  {
    if Occurs(v, b) {
      var i := OccurrenceOf(v, b);
    }
  }

  lemma FoundFirst(x: string, v: string, b: string)
    requires v != "" && x < v && (x == "" || v[|x|] != v[0])
    ensures Find(x + v + b, v) == Some(|x|)
  {
    var s := x + v + b;
    assert s[|x|..][..|v|] == v;
    OccursAt(v, s, |x|);
    FindIsFirst(s, v, |x|);
    EarlierMeansEqual(x, v, b, Find(s, v).value);
  }

  lemma EarlierMeansEqual(x: string, v: string, b: string, k: nat)
    requires v != "" && x < v && k + |v| <= |x + v + b| && (x + v + b)[k..k + |v|] == v
    ensures k < |x| ==> v[|x|] == v[0]
  {
    var s := x + v + b;
    assert s[k..k + |v|][0] == v[0] && s[k..k + |v|][|x|] == v[|x|];
    assert k < |x| ==> s[k] == x[k] == v[k] && s[k + |x|] == v[k];
  }

  lemma {:induction false} FindIsFirst(s: string, v: string, i: nat)
    requires i <= |s| && v <= s[i..]
    ensures Find(s, v).Some? && Find(s, v).value <= i
  {
    if i > 0 {
      assert s[1..][i - 1..] == s[i..];
      FindIsFirst(s[1..], v, i - 1);
    } else {
      assert s[0..] == s;
    }
  }

  /** A line on which an unsafe secret survives its own pass. */
  lemma UnsafeSurvives(v: string) returns (line: string)
    requires |v| >= 2 && !Safe(v)
    ensures Occurs(v, Replace(line, v))
  {
    hide Replace, Occurs, EndsWith, Agree;
    if Occurs(v, REDACTED) {
      line := v;
      PartOfIt(v);
    } else if v[0] == '*' {
      Asterisk(v);
      line := BeginsLikeItsEnd(v, 1);
    } else if exists k :: 0 < k < |v| && EndsWith(REDACTED, v[..k]) {
      var k :| 0 < k < |v| && EndsWith(REDACTED, v[..k]);
      line := BeginsLikeItsEnd(v, k);
    } else {
      var k :| 0 < k < |v| && Agree(v[k..], REDACTED);
      line := EndsLikeIt(v, k);
    }
  }

  lemma Asterisk(v: string)
    requires v != "" && v[0] == '*'
    ensures EndsWith(REDACTED, v[..1])
  {
    assert REDACTED[13..] == "*" == v[..1];
  }

  lemma PartOfIt(v: string)
    requires v != "" && Occurs(v, REDACTED)
    ensures Occurs(v, Replace(v, v))
  {
    MaskedItself(v);
  }

  lemma BeginsLikeItsEnd(v: string, k: nat) returns (line: string)
    requires 0 < k < |v| && EndsWith(REDACTED, v[..k])
    ensures Occurs(v, Replace(line, v))
  {
    hide Occurs, Replace;
    line := "" + v + v[k..];
    FoundFirst("", v, v[k..]);
    MaskedOnce("", v, v[k..]);
    Rejoined(REDACTED, v, k);
  }

  lemma Rejoined(r: string, v: string, k: nat)
    requires k <= |v| && EndsWith(r, v[..k])
    ensures Occurs(v, "" + r + v[k..])
  {
    var out, i := "" + r + v[k..], |r| - k;
    assert out[i..] == r[i..] + v[k..] == v;
    OccursAt(v, out, i);
  }

  lemma EndsLikeIt(v: string, k: nat) returns (line: string)
    requires 0 < k < |v| && Agree(v[k..], REDACTED) && v[0] != '*'
    ensures Occurs(v, Replace(line, v))
  {
    hide Occurs, Replace;
    var x, y := v[..k], v[k..];
    var b := if |y| > |REDACTED| then y[|REDACTED|..] else "";
    line := x + v + b;
    assert v[k] == y[0] == REDACTED[0];
    FoundFirst(x, v, b);
    MaskedOnce(x, v, b);
    Completed(REDACTED, v, k, b);
  }

  lemma Completed(r: string, v: string, k: nat, b: string)
    requires k <= |v| && Agree(v[k..], r) && b == if |v[k..]| > |r| then v[k..][|r|..] else ""
    ensures Occurs(v, v[..k] + r + b)
  {
    var out := v[..k] + r + b;
    assert v == v[..k] + v[k..];
    assert |v[k..]| > |r| ==> v[k..] == r + b;
    assert v <= out;
    assert out[0..] == out;
    OccursAt(v, out, 0);
  }

  /** One secret is masked on every line exactly when it is safe. */
  lemma MaskedOnEveryLineExactly(v: string)
    requires |v| >= SHORTEST
    ensures (forall line :: !Occurs(v, Replace(line, v))) <==> Safe(v)
  {
    if Safe(v) {
      forall line ensures !Occurs(v, Replace(line, v)) {
        if Occurs(v, Replace(line, v)) { PassIsClean(line, v, v); }
      }
    } else {
      var line := UnsafeSurvives(v);
    }
  }

  lemma MaskedNonEmpty(secrets: seq<string>)
    ensures NonEmpty(Masked(secrets))
  {
    MaskedIsSorted(secrets);
    forall i | 0 <= i < |Masked(secrets)| ensures Masked(secrets)[i] != "" {
      assert Masked(secrets)[i] in Masked(secrets);
    }
  }

  /** What the value loop makes of a line. */
  function Redacted(line: string, secrets: seq<string>): string {
    MaskedNonEmpty(secrets);
    Passes(line, Masked(secrets))
  }

  /** Among any other secrets: a secret is masked on every line, whatever set it is in,
      exactly when it is safe. */
  lemma MaskedInEverySetExactly(v: string)
    requires |v| >= SHORTEST
    ensures (forall line, secrets: seq<string> :: v in secrets ==> !Occurs(v, Redacted(line, secrets))) <==> Safe(v)
  {
    hide Safe, Occurs, Passes;
    if Safe(v) {
      forall line, secrets: seq<string> | v in secrets ensures !Occurs(v, Redacted(line, secrets)) {
        MaskedIsSorted(secrets);
        MaskedNonEmpty(secrets);
        NothingIsLeft(line, Masked(secrets), v);
      }
    } else {
      var line := UnsafeSurvives(v);
      OneSecret(line, v);
      assert v in [v];
    }
  }

  lemma OneSecret(line: string, v: string)
    requires |v| >= SHORTEST
    ensures Redacted(line, [v]) == Replace(line, v)
  {
    assert [v][1..] == [] && Masked([]) == [];
    assert Masked([v]) == Insert(v, []) == [v] + [];
    MaskedNonEmpty([v]);
    assert [v][..0] == [] && Passes(line, []) == line;
  }

  /** A secret that the redactor accepts and that survives it: there is a line on which
      `*abc` stands again after masking. */
  lemma AsteriskSecretSurvives() returns (line: string)
    ensures Occurs("*abc", Redacted(line, ["*abc"]))
  {
    hide Occurs, Replace;
    var v := "*abc";
    Asterisk(v);
    line := BeginsLikeItsEnd(v, 1);
    OneSecret(line, v);
  }

  /** Secrets without an asterisk that are no part of the placeholder's word are safe. */
  lemma NoAsteriskIsSafe(v: string)
    requires |v| >= SHORTEST && '*' !in v && !Occurs(v, WORD)
    ensures Safe(v)
  {
    hide Occurs;
    forall k | 0 < k < |v| ensures !EndsWith(REDACTED, v[..k]) && !Agree(v[k..], REDACTED) {
      assert v[..k][k - 1] in v && v[k..][0] in v;
    }
    if Occurs(v, REDACTED) {
      var i := OccurrenceOf(v, REDACTED);
      InsideTheWord(v, i);
    }
  }

  lemma InsideTheWord(v: string, i: nat)
    requires |v| >= SHORTEST && '*' !in v && i <= |REDACTED| && v <= REDACTED[i..]
    ensures Occurs(v, WORD)
  {
    hide Occurs;
    WithinTheWord(v, i);
    InsidePart(v, i, STARS, WORD, STARS);
  }

  lemma WithinTheWord(v: string, i: nat)
    requires |v| >= SHORTEST && '*' !in v && i <= |REDACTED| && v <= REDACTED[i..]
    ensures 3 <= i && i + |v| <= 11
  {
    forall p | i <= p < i + |v| ensures REDACTED[p] != '*' {
      assert v[p - i] == REDACTED[i..][p - i] == REDACTED[p];
    }
    assert REDACTED[0] == '*' && REDACTED[1] == '*' && REDACTED[2] == '*';
    assert REDACTED[11] == '*' && REDACTED[12] == '*' && REDACTED[13] == '*';
  }

  lemma InsidePart(v: string, i: nat, a: string, word: string, c: string)
    requires |a| <= i && i + |v| <= |a| + |word| && v <= (a + word + c)[i..]
    ensures Occurs(v, word)
  {
    assert v == (a + word + c)[i..i + |v|] == word[i - |a|..][..|v|];
    OccursAt(v, word, i - |a|);
  }

  /** A pass leaves the line alone exactly when it has nothing to mask, or masks
      the placeholder with itself. */
  lemma {:induction false} UntouchedExactly(s: string, v: string)
    requires v != ""
    ensures Replace(s, v) == s <==> !Occurs(v, s) || v == REDACTED
    decreases |s|
  {
    hide Replace, Occurs, Find, REDACTED;
    if Occurs(v, s) {
      var i := Find(s, v).value;
      var rest := s[i + |v|..];
      PassOverFirst(s, v, i);
      assert s == s[..i] + v + rest;
      if v == REDACTED {
        UntouchedExactly(rest, v);
      } else {
        GrowsLike(rest, v);
        MiddlesDiffer(s[..i], REDACTED, Replace(rest, v), v, rest);
      }
    } else {
      NothingToMask(s, v);
    }
  }

  lemma NothingToMask(s: string, v: string)
    requires v != "" && !Occurs(v, s)
    ensures Replace(s, v) == s
  {
    hide Occurs;
  }

  lemma MiddlesDiffer(x: string, r: string, b: string, v: string, rest: string)
    requires r != v
    requires (|v| <= |r| ==> |b| >= |rest|) && (|v| >= |r| ==> |b| <= |rest|)
    ensures x + r + b != x + v + rest
  {
    var s, t := x + r + b, x + v + rest;
    assert s[|x|..|x| + |r|] == r && t[|x|..|x| + |v|] == v;
  }

  lemma {:induction false} GrowsLike(s: string, v: string)
    requires v != ""
    ensures |v| <= |REDACTED| ==> |Replace(s, v)| >= |s|
    ensures |v| >= |REDACTED| ==> |Replace(s, v)| <= |s|
    decreases |s|
  {
    match Find(s, v)
    case None =>
    case Some(i) =>
      PassOverFirst(s, v, i);
      GrowsLike(s[i + |v|..], v);
  }

  lemma PassOverFirst(s: string, v: string, i: nat)
    requires v != "" && Find(s, v) == Some(i)
    ensures Replace(s, v) == s[..i] + REDACTED + Replace(s[i + |v|..], v)
  {
    hide REDACTED, Find, Join;
    JoinFirst(s[..i], Split(s[i + |v|..], v), REDACTED);
  }

  lemma JoinFirst(p: string, rest: seq<string>, sep: string)
    requires rest != []
    ensures Join([p] + rest, sep) == p + sep + Join(rest, sep)
  {
    assert ([p] + rest)[1..] == rest;
  }

  // --------------------------------------------------------------- the code

  /** The returned function's value loop: on every line and for every set of
      secrets, no safe secret of at least four characters is left, and a line that
      holds none of them is left alone. */
  method RedactValues(line: string, secrets: seq<string>) returns (out: string)
    ensures NonEmpty(Masked(secrets)) && out == Passes(line, Masked(secrets))
    ensures forall v :: v in secrets && |v| >= SHORTEST && Safe(v) ==> !Occurs(v, out)
    ensures (forall v :: v in secrets && |v| >= SHORTEST ==> !Occurs(v, line)) ==> out == line
  {
    hide Safe, Occurs, Replace, Split, Join, Passes, REDACTED;
    var values := Masked(secrets);
    MaskedIsSorted(secrets);
    forall i | 0 <= i < |values| ensures values[i] != "" && |values[i]| >= SHORTEST && values[i] in secrets {
      assert values[i] in values;
    }
    out := line;
    NoPass(line, values);
    for k := 0 to |values|
      invariant NonEmpty(values[..k]) && out == Passes(line, values[..k])
      invariant (forall v :: v in secrets && |v| >= SHORTEST ==> !Occurs(v, line)) ==> out == line
    {
      NextPass(line, values, k);
      UntouchedExactly(out, values[k]);
      out := Join(Split(out, values[k]), REDACTED);
    }
    assert values[..|values|] == values;
    forall v | v in secrets && |v| >= SHORTEST && Safe(v) ensures !Occurs(v, out) {
      NothingIsLeft(line, values, v);
    }
  }

  lemma NoPass(line: string, values: seq<string>)
    ensures NonEmpty(values[..0]) && Passes(line, values[..0]) == line
  {}

  lemma NextPass(line: string, values: seq<string>, k: nat)
    requires NonEmpty(values) && k < |values|
    ensures Passes(line, values[..k + 1]) == Replace(Passes(line, values[..k]), values[k])
    ensures Replace(Passes(line, values[..k]), values[k])
            == Join(Split(Passes(line, values[..k]), values[k]), REDACTED)
  {
    hide Split, Join;
    assert values[..k + 1][..k] == values[..k] && values[..k + 1][k] == values[k];
  }
}
