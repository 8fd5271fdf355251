/** Secret scrubbing: the replacement, the cached replacer, and what can be left in the output. */
module Redact {
  import opened Common

  const PLACEHOLDER := "[REDACTED]"

  /** unicode.IsSpace. */
  predicate IsSpace(c: char) {
    c == ' ' || '\t' <= c <= '\r' || c == '\U{0085}' || c == '\U{00A0}' || c == '\U{1680}' || '\U{2000}' <= c <= '\U{200A}'
    || c == '\U{2028}' || c == '\U{2029}' || c == '\U{202F}' || c == '\U{205F}' || c == '\U{3000}'
  }

  /** strings.TrimSpace leaves nothing. */
  predicate Blank(s: string) {
    forall i :: 0 <= i < |s| ==> IsSpace(s[i])
  }

  /** The text as the replacer cuts it up. */
  datatype Piece = Kept(c: char) | Cut(secret: string)

  predicate NonEmpty(vals: seq<string>) {
    forall i :: 0 <= i < |vals| ==> vals[i] != ""
  }

  /** The first of vals, in argument order, that starts the text. */
  function FirstMatch(vals: seq<string>, s: string): (r: Option<string>)
    ensures r.Some? ==> r.value in vals && r.value <= s
    ensures r.None? ==> forall i :: 0 <= i < |vals| ==> !(vals[i] <= s)
  {
    if vals == [] then None
    else if vals[0] <= s then Some(vals[0])
    else FirstMatch(vals[1..], s)
  }

  /** strings.Replacer: at each position the first matching value is cut, otherwise a character is kept. */
  function Pieces(vals: seq<string>, s: string): seq<Piece>
    requires NonEmpty(vals)
    decreases |s|
  {
    if s == "" then []
    else
      match FirstMatch(vals, s)
      case Some(v) => [Cut(v)] + Pieces(vals, s[|v|..])
      case None => [Kept(s[0])] + Pieces(vals, s[1..])
  }

  function Render(ps: seq<Piece>): string {
    if ps == [] then "" else (if ps[0].Kept? then [ps[0].c] else PLACEHOLDER) + Render(ps[1..])
  }

  /** Which characters of the rendering belong to an inserted placeholder. */
  function Inserted(ps: seq<Piece>): (r: seq<bool>)
    ensures |r| == |Render(ps)|
  {
    if ps == [] then [] else (if ps[0].Kept? then [false] else seq(|PLACEHOLDER|, _ => true)) + Inserted(ps[1..])
  }

  function Source(ps: seq<Piece>): string {
    if ps == [] then "" else (if ps[0].Kept? then [ps[0].c] else ps[0].secret) + Source(ps[1..])
  }

  function Replace(vals: seq<string>, s: string): string
    requires NonEmpty(vals)
  {
    Render(Pieces(vals, s))
  }

  /** Redaction only ever cuts secrets: putting them back gives the input. */
  lemma {:induction false} PiecesRestoreInput(vals: seq<string>, s: string)
    requires NonEmpty(vals)
    ensures Source(Pieces(vals, s)) == s
    ensures forall i :: 0 <= i < |Pieces(vals, s)| && Pieces(vals, s)[i].Cut? ==> Pieces(vals, s)[i].secret in vals
    decreases |s|
  {
    if s != "" {
      match FirstMatch(vals, s)
      case Some(v) =>
        PiecesRestoreInput(vals, s[|v|..]);
        assert ([Cut(v)] + Pieces(vals, s[|v|..]))[1..] == Pieces(vals, s[|v|..]);
        assert s == v + s[|v|..];
      case None =>
        PiecesRestoreInput(vals, s[1..]);
        assert ([Kept(s[0])] + Pieces(vals, s[1..]))[1..] == Pieces(vals, s[1..]);
        assert s == [s[0]] + s[1..];
    }
  }

  // ---- completeness ----

  predicate Occurs(w: string, out: string, k: nat) {
    k + |w| <= |out| && out[k..k + |w|] == w
  }

  /** Some character of out[k..k+n] was inserted. */
  ghost predicate Touches(inserted: seq<bool>, k: nat, n: nat) {
    exists j :: k <= j < k + n && j < |inserted| && inserted[j]
  }

  lemma CutTouches(vals: seq<string>, s: string, n: nat)
    requires NonEmpty(vals) && s != "" && FirstMatch(vals, s).Some? && n > 0
    ensures Touches(Inserted(Pieces(vals, s)), 0, n)
  {
    assert Inserted(Pieces(vals, s))[0];
  }

  lemma TouchesShifted(head: seq<bool>, tail: seq<bool>, k: nat, n: nat)
    requires Touches(tail, k, n)
    ensures Touches(head + tail, k + |head|, n)
  {
    var j :| k <= j < k + n && j < |tail| && tail[j];
    assert (head + tail)[j + |head|];
  }

  lemma TouchesLater(ps: seq<Piece>, k: nat, n: nat, m: nat)
    requires ps != [] && m == (if ps[0].Kept? then 1 else |PLACEHOLDER|)
    requires Touches(Inserted(ps[1..]), k, n)
    ensures Touches(Inserted(ps), k + m, n)
  {
    TouchesShifted(if ps[0].Kept? then [false] else seq(|PLACEHOLDER|, _ => true), Inserted(ps[1..]), k, n);
  }

  lemma FrontCons(c: char, a: string, b: string, n: nat)
    requires 0 < n <= |a| + 1 && n <= |b| + 1 && a[..n - 1] == b[..n - 1]
    ensures ([c] + a)[..n] == ([c] + b)[..n]
  {
    assert ([c] + a)[..n] == [c] + a[..n - 1];
    assert ([c] + b)[..n] == [c] + b[..n - 1];
  }

  /** Characters kept at the front of the output are the front of the input. */
  lemma {:induction false} KeptFront(vals: seq<string>, s: string, n: nat)
    requires NonEmpty(vals) && n <= |Render(Pieces(vals, s))|
    ensures Touches(Inserted(Pieces(vals, s)), 0, n) || (n <= |s| && s[..n] == Render(Pieces(vals, s))[..n])
    decreases n
  {
    if n > 0 {
      assert s != "";
      if FirstMatch(vals, s).Some? {
        CutTouches(vals, s, n);
      } else {
        KeptFront(vals, s[1..], n - 1);
        var ps, rest := Pieces(vals, s), Pieces(vals, s[1..]);
        assert ps == [Kept(s[0])] + rest && ps[1..] == rest;
        if Touches(Inserted(rest), 0, n - 1) {
          TouchesLater(ps, 0, n - 1, 1);
        } else {
          FrontCons(s[0], s[1..], Render(rest), n);
          assert s == [s[0]] + s[1..];
        }
      }
    }
  }

  lemma NoSecretAtFront(vals: seq<string>, s: string, w: string)
    requires NonEmpty(vals) && w in vals
    requires Occurs(w, Render(Pieces(vals, s)), 0)
    ensures Touches(Inserted(Pieces(vals, s)), 0, |w|)
  {
    if s != "" && FirstMatch(vals, s).Some? {
      CutTouches(vals, s, |w|);
    } else {
      KeptFront(vals, s, |w|);
    }
  }

  lemma OccursInTail(head: string, tail: string, w: string, k: nat)
    requires |head| <= k && Occurs(w, head + tail, k)
    ensures Occurs(w, tail, k - |head|)
  {
    assert (head + tail)[k..k + |w|] == tail[k - |head|..k - |head| + |w|];
  }

  /** Past its first piece, the output is the redaction of what is left of the text. */
  lemma DropFirstPiece(vals: seq<string>, s: string) returns (rest: string, head: string)
    requires NonEmpty(vals) && s != ""
    ensures |rest| < |s|
    ensures var ps := Pieces(vals, s);
            && ps != [] && ps[1..] == Pieces(vals, rest)
            && head == (if ps[0].Kept? then [ps[0].c] else PLACEHOLDER)
            && Render(ps) == head + Render(ps[1..])
            && (ps[0].Cut? ==> forall j :: 0 <= j < |head| ==> Inserted(ps)[j])
  {
    var ps := Pieces(vals, s);
    rest := if FirstMatch(vals, s).Some? then s[|FirstMatch(vals, s).value|..] else s[1..];
    head := if ps[0].Kept? then [ps[0].c] else PLACEHOLDER;
  }

  /** Every occurrence of a registered secret in the output overlaps an inserted placeholder. */
  lemma {:induction false} RedactionComplete(vals: seq<string>, s: string, w: string, k: nat)
    requires NonEmpty(vals) && w in vals
    requires Occurs(w, Render(Pieces(vals, s)), k)
    ensures Touches(Inserted(Pieces(vals, s)), k, |w|)
    decreases |s|
  {
    if k == 0 {
      NoSecretAtFront(vals, s, w);
    } else {
      var rest, head := DropFirstPiece(vals, s);
      var ps := Pieces(vals, s);
      if k < |head| {
        assert Inserted(ps)[k];
      } else {
        OccursInTail(head, Render(ps[1..]), w, k);
        RedactionComplete(vals, rest, w, k - |head|);
        TouchesLater(ps, k - |head|, |w|, |head|);
      }
    }
  }

  lemma {:induction false} InsertedIsPlaceholder(ps: seq<Piece>, j: nat)
    requires j < |Inserted(ps)| && Inserted(ps)[j]
    ensures Render(ps)[j] in PLACEHOLDER
    decreases |ps|
  {
    var n := if ps[0].Kept? then 1 else |PLACEHOLDER|;
    if j >= n {
      InsertedIsPlaceholder(ps[1..], j - n);
    } else {
      assert ps[0].Cut?;
      assert Render(ps)[j] == PLACEHOLDER[j];
    }
  }

  lemma SurvivorShares(vals: seq<string>, s: string, w: string, k: nat)
    requires NonEmpty(vals) && w in vals && Occurs(w, Replace(vals, s), k)
    ensures exists i :: 0 <= i < |w| && w[i] in PLACEHOLDER
  {
    RedactionComplete(vals, s, w, k);
    var ps := Pieces(vals, s);
    var j :| k <= j < k + |w| && j < |Inserted(ps)| && Inserted(ps)[j];
    InsertedIsPlaceholder(ps, j);
    assert Render(ps)[k..k + |w|][j - k] == w[j - k];
  }

  // ---- which secrets can survive ----

  /** Character j of w stands over character j + d of the placeholder. */
  predicate Over(w: string, d: int, j: int) {
    0 <= j < |w| && 0 <= j + d < |PLACEHOLDER|
  }

  /** Laid over the placeholder at offset d, w agrees with it wherever they meet, and they do meet. */
  ghost predicate LaysOver(w: string, d: int) {
    (exists j :: Over(w, d, j)) && forall j :: Over(w, d, j) ==> w[j] == PLACEHOLDER[j + d]
  }

  /** Every inserted character belongs to a whole placeholder in the output. */
  lemma {:induction false} InsertedBlock(ps: seq<Piece>, j: nat) returns (m: nat)
    requires j < |Inserted(ps)| && Inserted(ps)[j]
    ensures m <= j < m + |PLACEHOLDER| <= |Render(ps)| && Render(ps)[m..m + |PLACEHOLDER|] == PLACEHOLDER
    decreases |ps|
  {
    var head := if ps[0].Kept? then [ps[0].c] else PLACEHOLDER;
    assert Render(ps) == head + Render(ps[1..]);
    if j < |head| {
      m := 0;
      assert ps[0].Cut?;
      assert (head + Render(ps[1..]))[..|head|] == head;
    } else {
      var k := InsertedBlock(ps[1..], j - |head|);
      m := k + |head|;
      BlockInTail(head, Render(ps[1..]), k);
    }
  }

  lemma BlockInTail(head: string, tail: string, k: nat)
    requires k + |PLACEHOLDER| <= |tail| && tail[k..k + |PLACEHOLDER|] == PLACEHOLDER
    ensures (head + tail)[k + |head|..k + |head| + |PLACEHOLDER|] == PLACEHOLDER
  {
    assert (head + tail)[k + |head|..k + |head| + |PLACEHOLDER|] == tail[k..k + |PLACEHOLDER|];
  }

  /** Two occurrences that meet agree where they do. */
  lemma MeetingAgrees(out: string, w: string, k: nat, m: nat, j: nat)
    requires Occurs(w, out, k) && m + |PLACEHOLDER| <= |out| && out[m..m + |PLACEHOLDER|] == PLACEHOLDER
    requires k <= j < k + |w| && m <= j < m + |PLACEHOLDER|
    ensures LaysOver(w, k - m)
  {
    assert Over(w, k - m, j - k);
    forall i | Over(w, k - m, i) ensures w[i] == PLACEHOLDER[i + (k - m)] {
      assert out[k..k + |w|][i] == out[k + i];
      assert out[m..m + |PLACEHOLDER|][i + (k - m)] == out[k + i];
    }
  }

  /** A registered secret found in the output lies over the placeholder at some offset. */
  lemma SurvivorLaysOver(vals: seq<string>, s: string, w: string, k: nat)
    requires NonEmpty(vals) && w in vals && Occurs(w, Replace(vals, s), k)
    ensures exists d :: LaysOver(w, d)
  {
    RedactionComplete(vals, s, w, k);
    var ps := Pieces(vals, s);
    var j :| k <= j < k + |w| && j < |Inserted(ps)| && Inserted(ps)[j];
    var m := InsertedBlock(ps, j);
    MeetingAgrees(Render(ps), w, k, m, j);
  }

  /** A secret that cannot be laid over the placeholder never occurs in the output; in particular one
      that shares no character with it. */
  lemma DisjointSecretsVanish(vals: seq<string>, s: string, w: string, k: nat)
    requires NonEmpty(vals) && w in vals && forall d :: !LaysOver(w, d)
    ensures !Occurs(w, Replace(vals, s), k)
  {
    if Occurs(w, Replace(vals, s), k) {
      SurvivorLaysOver(vals, s, w, k);
    }
  }

  lemma DisjointNeverLaysOver(w: string, d: int)
    requires forall i :: 0 <= i < |w| ==> w[i] !in PLACEHOLDER
    ensures !LaysOver(w, d)
  {
    forall j | Over(w, d, j) ensures w[j] != PLACEHOLDER[j + d] {
      assert PLACEHOLDER[j + d] in PLACEHOLDER;
    }
  }

  /** Keeping a character that starts no secret. */
  lemma KeepOne(vals: seq<string>, s: string)
    requires NonEmpty(vals) && s != "" && FirstMatch(vals, s).None?
    ensures Replace(vals, s) == [s[0]] + Replace(vals, s[1..])
  {
    var rest := Pieces(vals, s[1..]);
    assert Pieces(vals, s) == [Kept(s[0])] + rest;
    assert ([Kept(s[0])] + rest)[1..] == rest;
  }

  lemma CutOne(vals: seq<string>, s: string, v: string)
    requires NonEmpty(vals) && s != "" && FirstMatch(vals, s) == Some(v)
    ensures Replace(vals, s) == PLACEHOLDER + Replace(vals, s[|v|..])
  {
    var rest := Pieces(vals, s[|v|..]);
    assert Pieces(vals, s) == [Cut(v)] + rest;
    assert ([Cut(v)] + rest)[1..] == rest;
  }

  /** No secret starts inside the first n characters of s. */
  ghost predicate ClearUpTo(vals: seq<string>, s: string, n: nat)
    requires n <= |s|
  {
    forall i :: 0 <= i < n ==> FirstMatch(vals, s[i..]).None?
  }

  lemma {:induction false} KeepMany(vals: seq<string>, s: string, n: nat)
    requires NonEmpty(vals) && n <= |s| && ClearUpTo(vals, s, n)
    ensures Replace(vals, s) == s[..n] + Replace(vals, s[n..])
    decreases n
  {
    if n == 0 {
      assert s[0..] == s && s[..0] == "";
    } else {
      assert s[0..] == s;
      assert FirstMatch(vals, s[0..]).None?;
      KeepOne(vals, s);
      forall i | 0 <= i < n - 1 ensures FirstMatch(vals, s[1..][i..]).None? {
        assert s[1..][i..] == s[i + 1..];
      }
      KeepMany(vals, s[1..], n - 1);
      assert s[1..][n - 1..] == s[n..];
      assert [s[0]] + s[1..][..n - 1] == s[..n];
    }
  }

  // A surviving secret, cut up: its characters before the placeholder, those over it, those behind it.

  function Front(w: string, d: int): string
    requires -|w| <= d
  {
    if d < 0 then w[..-d] else ""
  }

  function Back(w: string, d: int): string
    requires d <= |PLACEHOLDER|
  {
    if d + |w| > |PLACEHOLDER| then w[|w| - (d + |w| - |PLACEHOLDER|)..] else ""
  }

  /** A letter that is not in the placeholder and does not end the front. */
  function Filler(front: string): (c: char)
    ensures !IsSpace(c) && c !in PLACEHOLDER && (front != "" ==> c != front[|front| - 1])
  {
    if front != "" && front[|front| - 1] == 'a' then 'b' else 'a'
  }

  /** A second secret, longer than w, made of that letter only. */
  function Run(c: char, n: nat): (r: string)
    ensures |r| == n + 1 && forall i :: 0 <= i <= n ==> r[i] == c
  {
    seq(n + 1, _ => c)
  }

  lemma Offsets(w: string, d: int)
    requires LaysOver(w, d)
    ensures -|w| < d < |PLACEHOLDER|
  {
    var j :| Over(w, d, j);
  }

  /** The character of w behind its front is one of the placeholder's. */
  lemma MiddleStart(w: string, d: int)
    requires LaysOver(w, d)
    ensures -|w| < d < |PLACEHOLDER| && |Front(w, d)| < |w| && w[|Front(w, d)|] in PLACEHOLDER && |Back(w, d)| < |w|
  {
    Offsets(w, d);
    var j := |Front(w, d)|;
    assert Over(w, d, j);
    assert w[j] == PLACEHOLDER[j + d];
  }

  /** Inside the front nothing matches: the run of fillers is too far away, and w would meet it. */
  lemma FrontIsClear(w: string, d: int, back: string, i: nat)
    requires LaysOver(w, d) && -|w| < d && i < |Front(w, d)|
    ensures var front := Front(w, d);
            var fill := Run(Filler(front), |w|);
            FirstMatch([fill, w], (front + fill + back)[i..]).None?
  {
    MiddleStart(w, d);
    var front := Front(w, d);
    var c := Filler(front);
    var fill := Run(c, |w|);
    var s := front + fill + back;
    var rest := s[i..];
    assert rest[|front| - 1 - i] == front[|front| - 1];
    NotPrefix(fill, rest, |front| - 1 - i);
    assert rest[|front|] == s[i + |front|] == c;
    NotPrefix(w, rest, |front|);
    NoneOfTwo(fill, w, rest);
  }

  lemma NotPrefix(u: string, s: string, i: nat)
    requires i < |u| && i < |s| && u[i] != s[i]
    ensures !(u <= s)
  {
  }

  lemma NoneOfTwo(u: string, w: string, s: string)
    requires !(u <= s) && !(w <= s)
    ensures FirstMatch([u, w], s).None?
  {
    assert [u, w][1..] == [w] && [w][1..] == [];
  }

  lemma ShortIsClear(vals: seq<string>, s: string)
    requires NonEmpty(vals) && forall v :: v in vals ==> |s| < |v|
    ensures Replace(vals, s) == s
  {
    forall i | 0 <= i < |s| ensures FirstMatch(vals, s[i..]).None? {
    }
    KeepMany(vals, s, |s|);
    assert s[|s|..] == "" && s[..|s|] == s;
    assert Pieces(vals, "") == [];
  }

  lemma FrontKept(w: string, d: int, back: string)
    requires LaysOver(w, d) && -|w| < d && w != ""
    ensures var front := Front(w, d);
            var fill := Run(Filler(front), |w|);
            Replace([fill, w], front + fill + back) == front + Replace([fill, w], fill + back)
  {
    var front := Front(w, d);
    var fill := Run(Filler(front), |w|);
    var s := front + fill + back;
    assert ClearUpTo([fill, w], s, |front|) by {
      forall i | 0 <= i < |front| ensures FirstMatch([fill, w], s[i..]).None? {
        FrontIsClear(w, d, back, i);
      }
    }
    assert s == front + (fill + back);
    assert s[..|front|] == front && s[|front|..] == fill + back;
    KeepMany([fill, w], s, |front|);
  }

  lemma FillCut(fill: string, w: string, back: string)
    requires w != "" && |back| < |w| < |fill|
    ensures Replace([fill, w], fill + back) == PLACEHOLDER + back
  {
    assert fill <= fill + back;
    CutOne([fill, w], fill + back, fill);
    assert (fill + back)[|fill|..] == back;
    ShortIsClear([fill, w], back);
  }

  /** The text to redact: front, filler and back. */
  function Carrier(w: string, d: int): string
    requires -|w| < d < |PLACEHOLDER|
  {
    Front(w, d) + Run(Filler(Front(w, d)), |w|) + Back(w, d)
  }

  /** Its redaction is front, placeholder and back. */
  lemma FilledRedaction(w: string, d: int)
    requires LaysOver(w, d) && -|w| < d < |PLACEHOLDER|
    ensures w != "" && Replace([Run(Filler(Front(w, d)), |w|), w], Carrier(w, d)) == Front(w, d) + PLACEHOLDER + Back(w, d)
  {
    MiddleStart(w, d);
    var fill := Run(Filler(Front(w, d)), |w|);
    FrontKept(w, d, Back(w, d));
    FillCut(fill, w, Back(w, d));
    assert Front(w, d) + (PLACEHOLDER + Back(w, d)) == Front(w, d) + PLACEHOLDER + Back(w, d);
  }

  /** w is found in that output. */
  lemma FoundInFilled(w: string, d: int)
    requires LaysOver(w, d) && -|w| < d < |PLACEHOLDER|
    ensures Occurs(w, Front(w, d) + PLACEHOLDER + Back(w, d), if d < 0 then 0 else d)
  {
    var front, back := Front(w, d), Back(w, d);
    var out := front + PLACEHOLDER + back;
    var k := if d < 0 then 0 else d;
    forall j | 0 <= j < |w| ensures out[k + j] == w[j] {
      if Over(w, d, j) {
        assert w[j] == PLACEHOLDER[j + d];
      }
    }
    assert out[k..k + |w|] == w;
  }

  /** Registered with the others, w is left at position k of the redacted text. */
  ghost predicate Survives(w: string, secrets: set<string>, s: string, k: nat) {
    w in secrets && (forall v :: v in secrets ==> !Blank(v)) && Occurs(w, RedactBy(secrets, s), k)
  }

  /** The exact condition: a registered secret can be left in some redacted text if and only if it
      can be laid over the placeholder. */
  lemma SurvivesExactly(w: string)
    requires !Blank(w)
    ensures (exists secrets, s, k: nat :: Survives(w, secrets, s, k)) <==> exists d :: LaysOver(w, d)
  {
    forall secrets, s, k: nat | Survives(w, secrets, s, k) ensures exists d :: LaysOver(w, d) {
      var vals := SomeOrder(secrets);
      OrderIrrelevant(vals, secrets, s);
      SurvivorLaysOver(vals, s, w, k);
    }
    if d :| LaysOver(w, d) {
      SurvivorExists(w, d);
    }
  }

  lemma SurvivorExists(w: string, d: int)
    requires !Blank(w) && LaysOver(w, d)
    ensures exists secrets, s, k: nat :: Survives(w, secrets, s, k)
  {
    Offsets(w, d);
    FilledRedaction(w, d);
    FoundInFilled(w, d);
    var fill := Run(Filler(Front(w, d)), |w|);
    RunIsVisible(Filler(Front(w, d)), |w|);
    TwoOrdered(fill, w);
    OrderIrrelevant([fill, w], {fill, w}, Carrier(w, d));
    assert Survives(w, {fill, w}, Carrier(w, d), if d < 0 then 0 else d);
  }

  lemma RunIsVisible(c: char, n: nat)
    requires !IsSpace(c)
    ensures !Blank(Run(c, n))
  {
    assert Run(c, n)[0] == c;
  }

  lemma TwoOrdered(u: string, w: string)
    requires |w| < |u| && w != ""
    ensures Orders([u, w], {u, w})
  {
  }

  lemma {:induction false} SomeOrder(secrets: set<string>) returns (vals: seq<string>)
    requires "" !in secrets
    ensures Orders(vals, secrets)
    decreases |secrets|
  {
    if secrets == {} {
      vals := [];
    } else {
      HasLongest(secrets);
      var top :| top in secrets && forall u :: u in secrets ==> |u| <= |top|;
      var rest := SomeOrder(secrets - {top});
      vals := [top] + rest;
      ConsOrders(top, rest, secrets);
    }
  }

  lemma ConsOrders(top: string, rest: seq<string>, secrets: set<string>)
    requires top in secrets && "" !in secrets && Orders(rest, secrets - {top}) && forall u :: u in secrets ==> |u| <= |top|
    ensures Orders([top] + rest, secrets)
  {
    var vals := [top] + rest;
    forall i, j | 0 <= i < j < |vals| ensures |vals[j]| <= |vals[i]| {
      assert vals[j] == rest[j - 1] && rest[j - 1] in rest;
      assert i > 0 ==> vals[i] == rest[i - 1];
    }
    forall v ensures v in vals <==> v in secrets {
      assert v in vals <==> v == top || v in rest;
    }
  }

  /** The overlap is real: a secret made of placeholder characters is found in its own redaction. */
  lemma PlaceholderSecretStays()
    ensures Occurs("RED", Replace(["RED"], "RED"), 1)
  {
    assert FirstMatch(["RED"], "RED") == Some("RED");
    assert "RED"[3..] == "";
    assert Pieces(["RED"], "RED") == [Cut("RED")];
    assert [Cut("RED")][1..] == [];
    assert Render([Cut("RED")]) == PLACEHOLDER;
  }

  // ---- only the set matters ----

  predicate LongestFirst(vals: seq<string>) {
    forall i, j :: 0 <= i < j < |vals| ==> |vals[j]| <= |vals[i]|
  }

  /** The longest registered secret of at most n characters that starts the text. */
  function Longest(secrets: set<string>, s: string, n: nat): (r: Option<string>)
    requires n <= |s|
    ensures r.Some? ==> r.value in secrets && 0 < |r.value| <= n && r.value <= s
  {
    if n == 0 then None else if s[..n] in secrets then Some(s[..n]) else Longest(secrets, s, n - 1)
  }

  /** Redaction as a function of the registered set alone. */
  function SetPieces(secrets: set<string>, s: string): seq<Piece>
    decreases |s|
  {
    if s == "" then []
    else
      match Longest(secrets, s, |s|)
      case Some(v) => [Cut(v)] + SetPieces(secrets, s[|v|..])
      case None => [Kept(s[0])] + SetPieces(secrets, s[1..])
  }

  function RedactBy(secrets: set<string>, s: string): string {
    Render(SetPieces(secrets, s))
  }

  /** What the redaction does where the text goes on with `rest`: it cuts a registered secret that
      starts there and none longer does, or keeps the character because none starts there. */
  ghost predicate CutsLongest(secrets: set<string>, rest: string, piece: Piece) {
    match piece
    case Cut(v) => v in secrets && v != "" && v <= rest && forall u :: u in secrets && u <= rest ==> |u| <= |v|
    case Kept(c) => rest != "" && c == rest[0] && forall u :: u in secrets && u <= rest ==> u == ""
  }

  function Width(p: Piece): nat {
    if p.Cut? then |p.secret| else 1
  }

  /** The first piece, and where the text goes on behind it. */
  lemma FirstPiece(secrets: set<string>, s: string) returns (first: Piece)
    requires s != ""
    ensures Width(first) <= |s| && CutsLongest(secrets, s, first)
    ensures SetPieces(secrets, s) == [first] + SetPieces(secrets, s[Width(first)..])
  {
    LongestExact(secrets, s, |s|);
    first := match Longest(secrets, s, |s|) case Some(v) => Cut(v) case None => Kept(s[0]);
  }

  /** At every place of the text the longest registered secret starting there is cut, and a character
      is kept only where none starts. */
  lemma {:induction false} LongestIsCut(secrets: set<string>, s: string, i: nat)
    requires i < |SetPieces(secrets, s)|
    ensures var o := |Source(SetPieces(secrets, s)[..i])|;
            o <= |s| && CutsLongest(secrets, s[o..], SetPieces(secrets, s)[i])
    decreases i
  {
    var first := FirstPiece(secrets, s);
    var n, rest := Width(first), SetPieces(secrets, s[Width(first)..]);
    if i == 0 {
      assert ([first] + rest)[..0] == [] && s[0..] == s;
    } else {
      LongestIsCut(secrets, s[n..], i - 1);
      CutShift(secrets, s, first, rest, i);
    }
  }

  lemma CutShift(secrets: set<string>, s: string, first: Piece, rest: seq<Piece>, i: nat)
    requires Width(first) <= |s| && 0 < i <= |rest|
    requires var o, tail := |Source(rest[..i - 1])|, s[Width(first)..]; o <= |tail| && CutsLongest(secrets, tail[o..], rest[i - 1])
    ensures var ps := [first] + rest;
            var o := |Source(ps[..i])|;
            o <= |s| && CutsLongest(secrets, s[o..], ps[i])
  {
    SourceShift(first, rest, i);
    var n, o := Width(first), |Source(rest[..i - 1])|;
    assert s[n..][o..] == s[n + o..];
  }

  lemma SourceShift(first: Piece, rest: seq<Piece>, i: nat)
    requires 0 < i <= |rest| + 1
    ensures |Source(([first] + rest)[..i])| == Width(first) + |Source(rest[..i - 1])|
  {
    var ps := ([first] + rest)[..i];
    assert ps[0] == first && ps[1..] == rest[..i - 1];
  }

  ghost predicate Orders(vals: seq<string>, secrets: set<string>) {
    LongestFirst(vals) && NonEmpty(vals) && forall v :: v in vals <==> v in secrets
  }

  lemma {:induction false} LongestExact(secrets: set<string>, s: string, n: nat)
    requires n <= |s|
    ensures match Longest(secrets, s, n)
            case Some(v) => 0 < |v| <= n && v in secrets && v <= s && forall u :: u in secrets && u <= s && |u| <= n ==> |u| <= |v|
            case None => forall u :: u in secrets && u <= s && |u| <= n ==> u == ""
  {
    if n > 0 {
      LongestExact(secrets, s, n - 1);
      forall u | u in secrets && u <= s && |u| == n ensures u == s[..n] {
      }
    }
  }

  lemma {:induction false} FirstIsLongest(vals: seq<string>, s: string)
    requires LongestFirst(vals)
    ensures FirstMatch(vals, s).Some? ==> forall u :: u in vals && u <= s ==> |u| <= |FirstMatch(vals, s).value|
  {
    if vals != [] {
      if vals[0] <= s {
        forall u | u in vals ensures |u| <= |vals[0]| {
          var i :| 0 <= i < |vals| && vals[i] == u;
        }
      } else {
        FirstIsLongest(vals[1..], s);
      }
    }
  }

  lemma MatchAgrees(vals: seq<string>, secrets: set<string>, s: string)
    requires Orders(vals, secrets)
    ensures FirstMatch(vals, s) == Longest(secrets, s, |s|)
  {
    LongestExact(secrets, s, |s|);
    FirstIsLongest(vals, s);
    var a, b := FirstMatch(vals, s), Longest(secrets, s, |s|);
    if a.Some? {
      assert a.value in secrets && a.value != "";
      assert b.Some? && |b.value| == |a.value|;
      assert a.value == s[..|a.value|] && b.value == s[..|b.value|];
    }
  }

  /** Any longest-first ordering of the registered set redacts alike: map order, sort ties and
      registration order do not show. */
  lemma {:induction false} OrderIrrelevant(vals: seq<string>, secrets: set<string>, s: string)
    requires Orders(vals, secrets)
    ensures Pieces(vals, s) == SetPieces(secrets, s)
    decreases |s|
  {
    if s != "" {
      MatchAgrees(vals, secrets, s);
      match FirstMatch(vals, s)
      case Some(v) => OrderIrrelevant(vals, secrets, s[|v|..]);
      case None => OrderIrrelevant(vals, secrets, s[1..]);
    }
  }

  lemma {:induction false} HasLongest(s: set<string>)
    requires s != {}
    ensures exists v :: v in s && forall u :: u in s ==> |u| <= |v|
    decreases |s|
  {
    var x :| x in s;
    if s - {x} == {} {
      assert s == {x};
    } else {
      HasLongest(s - {x});
      var v :| v in s - {x} && forall u :: u in s - {x} ==> |u| <= |v|;
      var top := if |v| <= |x| then x else v;
      forall u | u in s ensures |u| <= |top| {
        assert u == x || u in s - {x};
      }
      assert top in s;
    }
  }

  class Redactor {
    var secrets: set<string>
    var replacer: Option<seq<string>>  // None when stale or empty

    /** Registered values are non-blank, and a cached replacer agrees with the current set. */
    ghost predicate Valid()
      reads this
    {
      && (forall v :: v in secrets ==> !Blank(v))
      && (replacer.Some? ==> Orders(replacer.value, secrets))
    }

    constructor ()
      ensures Valid() && secrets == {}
    {
      secrets, replacer := {}, None;
    }

    method AddSecret(value: string)
      requires Valid()
      modifies this
      ensures Valid() && secrets == if forall i :: 0 <= i < |value| ==> IsSpace(value[i]) then old(secrets) else old(secrets) + {value}
    {
      if Blank(value) {
        return;
      }
      if value in secrets {
        assert secrets == secrets + {value};
        return;
      }
      secrets := secrets + {value};
      replacer := None;
    }

    /** Build the replacer if it is stale: the values in any order, sorted longest first. */
    method ReplacerLocked() returns (rep: Option<seq<string>>)
      requires Valid()
      modifies this`replacer
      ensures Valid() && rep == replacer && (rep.None? <==> secrets == {} && old(replacer).None?)
      ensures rep.Some? ==> Orders(rep.value, secrets)
    {
      if replacer.Some? || secrets == {} {
        return replacer;
      }
      var vals: seq<string> := [];
      var rest := secrets;
      while rest != {}
        invariant rest <= secrets && LongestFirst(vals) && NonEmpty(vals)
        invariant forall v :: v in vals <==> v in secrets - rest
        invariant forall i, v :: 0 <= i < |vals| && v in rest ==> |v| <= |vals[i]|
        decreases |rest|
      {
        HasLongest(rest);
        var v :| v in rest && forall u :: u in rest ==> |u| <= |v|;
        vals := vals + [v];
        rest := rest - {v};
      }
      replacer := Some(vals);
      rep := replacer;
    }

    /** The output depends on the registered set and the text only, and any registered secret still
        found in it overlaps an inserted placeholder. */
    method Redact(s: string) returns (out: string)
      requires Valid()
      modifies this`replacer
      ensures Valid() && out == RedactBy(secrets, s)
      ensures forall w, k :: w in secrets && Occurs(w, out, k) ==> Touches(Inserted(SetPieces(secrets, s)), k, |w|)
    {
      var rep := ReplacerLocked();
      if rep.None? {
        EmptyRedactsNothing(s);
        return s;
      }
      OrderIrrelevant(rep.value, secrets, s);
      out := Replace(rep.value, s);
      forall w, k | w in secrets && Occurs(w, out, k) ensures Touches(Inserted(SetPieces(secrets, s)), k, |w|) {
        RedactionComplete(rep.value, s, w, k);
      }
    }
  }

  lemma {:induction false} EmptyRedactsNothing(s: string)
    ensures RedactBy({}, s) == s
    decreases |s|
  {
    if s != "" {
      LongestExact({}, s, |s|);
      EmptyRedactsNothing(s[1..]);
      assert SetPieces({}, s)[1..] == SetPieces({}, s[1..]);
    }
  }
}
