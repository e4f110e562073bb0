/** What the slug normalisers compute, said without their steps: the pieces of the identifier between
    separators, joined by dashes (modelidentity/identity.go). */
module SlugPieces {
  import opened Text
  import opened Slugs

  // ---- Pieces -----------------------------------------------------------------------------------

  function RunLength(p: char -> bool, s: string): (n: nat)
    ensures n <= |s| && (n < |s| ==> p(s[n]))
    ensures forall i | 0 <= i < n :: !p(s[i])
  {
    if s == "" || p(s[0]) then 0 else 1 + RunLength(p, s[1..])
  }

  /** The non-empty runs between runes of `p`. */
  function Pieces(p: char -> bool, s: string): seq<string> {
    if s == "" then []
    else if p(s[0]) then Pieces(p, s[1..])
    else [s[..RunLength(p, s)]] + Pieces(p, s[RunLength(p, s)..])
  }

  function Joined(pieces: seq<string>): string {
    if |pieces| == 0 then ""
    else if |pieces| == 1 then pieces[0]
    else pieces[0] + "-" + Joined(pieces[1..])
  }

  lemma JoinedCons(piece: string, pieces: seq<string>)
    ensures Joined([piece] + pieces) == if pieces == [] then piece else piece + "-" + Joined(pieces)
  {
    assert ([piece] + pieces)[1..] == pieces;
  }

  lemma {:induction false} PiecesAreSome(p: char -> bool, s: string)
    ensures forall x | x in Pieces(p, s) :: x != ""
    ensures Pieces(p, s) == [] <==> Joined(Pieces(p, s)) == ""
  {
    if s != "" {
      if p(s[0]) {
        PiecesAreSome(p, s[1..]);
      } else {
        var n := RunLength(p, s);
        PiecesAreSome(p, s[n..]);
        JoinedCons(s[..n], Pieces(p, s[n..]));
      }
    }
  }

  // ---- Trimming and collapsing, piece by piece --------------------------------------------------

  lemma {:induction false} TrimRightConcat(p: char -> bool, a: string, b: string)
    requires a == "" || !p(a[|a| - 1])
    ensures TrimRight(p, a + b) == a + TrimRight(p, b)
    decreases |b|
  {
    if b == "" {
      assert a + b == a && a + TrimRight(p, b) == a;
    } else {
      var s := a + b;
      assert s[|s| - 1] == b[|b| - 1] && s[..|s| - 1] == a + b[..|b| - 1];
      if p(b[|b| - 1]) { TrimRightConcat(p, a, b[..|b| - 1]); }
    }
  }

  /** Of a dash before text only the dash is kept. */
  lemma DashBefore(x: string)
    requires x == "" || x[0] != '-'
    ensures TrimRight(IsDash, "-" + x) == if TrimRight(IsDash, x) == "" then "" else "-" + TrimRight(IsDash, x)
    ensures Trim(IsDash, "-" + x) == TrimRight(IsDash, x)
  {
    var s := "-" + x;
    assert s[1..] == x && TrimLeft(IsDash, s) == TrimLeft(IsDash, x) == x;
    DashBeforeRight(x);
  }

  lemma {:induction false} DashBeforeRight(x: string)
    requires x == "" || x[0] != '-'
    ensures TrimRight(IsDash, "-" + x) == if TrimRight(IsDash, x) == "" then "" else "-" + TrimRight(IsDash, x)
  {
    var s := "-" + x;
    if x == "" {
      assert s == "-" && s[..0] == "";
    } else {
      var gap := TrimRightSplits(IsDash, x);
      TrimRightKeepsHead(IsDash, x);
      var core := TrimRight(IsDash, x);
      assert s == ("-" + core) + gap;
      TrimRightUnsplits(IsDash, "-" + core, gap);
    }
  }

  /** A run of other runes before a dash, collapsed and trimmed. */
  lemma RunBefore(run: string, rest: string)
    requires run != "" && (forall i | 0 <= i < |run| :: run[i] != '-') && (rest != "" ==> rest[0] == '-')
    ensures var tail := Trim(IsDash, Collapse(rest));
            Trim(IsDash, Collapse(run + rest)) == if tail == "" then run else run + "-" + tail
  {
    CollapseConcat(run, rest);
    CollapseFixed(run);
    CollapseShape(rest);
    hide *;
    RunBeforeCollapsed(run, Collapse(rest));
  }

  lemma RunBeforeCollapsed(run: string, c: string)
    requires run != "" && (forall i | 0 <= i < |run| :: run[i] != '-')
    requires !HasDashPair(c) && (c != "" ==> c[0] == '-')
    ensures var tail := Trim(IsDash, c); Trim(IsDash, run + c) == if tail == "" then run else run + "-" + tail
  {
    assert TrimLeft(IsDash, run + c) == run + c by { assert (run + c)[0] == run[0]; }
    TrimRightConcat(IsDash, run, c);
    hide TrimRight;
    assert run + "" == run;
    if c == "" {
      NothingToTrim();
    } else {
      var x := c[1..];
      assert c == "-" + x;
      assert x != "" ==> !(c[0] == '-' && c[1] == '-') && x[0] == c[1];
      hide HasDashPair;
      DashBefore(x);
      ConcatAssociates(run, "-", TrimRight(IsDash, x));
    }
  }

  lemma NothingToTrim()
    ensures Collapse("") == "" && TrimRight(IsDash, "") == "" && Trim(IsDash, "") == ""
  {
  }

  lemma {:induction false} LeadingDash(s: string)
    requires s != "" && s[0] == '-'
    ensures Trim(IsDash, Collapse(s)) == Trim(IsDash, Collapse(s[1..]))
  {
    if |s| == 1 {
      SingleDash();
      assert s == "-" && s[1..] == "";
      CollapseOne(s);
    } else {
      CollapseStep(s);
      hide Collapse;
      var rest := Collapse(s[1..]);
      if s[1] == '-' {
        assert "" + rest == rest;
      } else {
        assert ([s[0]] + rest)[1..] == rest;
      }
    }
  }

  /** Collapsing dashes and trimming them leaves the pieces between them. */
  lemma {:induction false} DashesJoin(s: string)
    ensures Trim(IsDash, Collapse(s)) == Joined(Pieces(IsDash, s))
    decreases |s|
  {
    hide Collapse, Trim, Joined;
    if s == "" {
      NothingToTrim();
      NoPieces();
    } else if IsDash(s[0]) {
      LeadingDash(s);
      DashesJoin(s[1..]);
    } else {
      var n := RunLength(IsDash, s);
      var run, rest := s[..n], s[n..];
      DashesJoin(rest);
      assert s == run + rest;
      RunBefore(run, rest);
      PiecesAreSome(IsDash, rest);
      JoinedCons(run, Pieces(IsDash, rest));
    }
  }

  lemma NoPieces()
    ensures Joined([]) == ""
  {
  }

  lemma {:induction false} RunOfMap(style: Style, s: string)
    ensures RunLength(IsDash, Map(Dash(style), s)) == RunLength(Edge(style), s)
  {
    if s != "" && !Edge(style)(s[0]) {
      assert Map(Dash(style), s)[1..] == Map(Dash(style), s[1..]);
      RunOfMap(style, s[1..]);
    }
  }

  /** Turning separators into dashes leaves the pieces as they are. */
  lemma {:induction false} PiecesOfMap(style: Style, s: string)
    ensures Pieces(IsDash, Map(Dash(style), s)) == Pieces(Edge(style), s)
    decreases |s|
  {
    if s != "" {
      var mapped := Map(Dash(style), s);
      if Edge(style)(s[0]) {
        assert mapped[1..] == Map(Dash(style), s[1..]);
        PiecesOfMap(style, s[1..]);
      } else {
        RunOfMap(style, s);
        var n := RunLength(Edge(style), s);
        assert mapped[..n] == s[..n];
        assert mapped[n..] == Map(Dash(style), s[n..]);
        PiecesOfMap(style, s[n..]);
      }
    }
  }

  // ---- The slugs --------------------------------------------------------------------------------

  /** What parts a vendor id. */
  predicate VendorBreak(c: char) {
    c in ['-', '_', ' ', '.', '/']
  }

  /** What parts a model id; the dot is kept. */
  predicate ModelBreak(c: char) {
    c in ['-', '_', ' ', '/']
  }

  lemma {:induction false} SamePieces(p: char -> bool, q: char -> bool, s: string)
    requires forall c :: p(c) <==> q(c)
    ensures RunLength(p, s) == RunLength(q, s) && Pieces(p, s) == Pieces(q, s)
    decreases |s|
  {
    if s != "" {
      SamePieces(p, q, s[1..]);
      if !p(s[0]) { SamePieces(p, q, s[RunLength(p, s)..]); }
    }
  }

  /** A vendor slug is the pieces of the lower-cased identifier without its edge whitespace, joined. */
  lemma VendorSlugJoins(raw: string)
    ensures VendorSlug(raw) == Joined(Pieces(VendorBreak, Lower(TrimSpace(raw))))
  {
    hide Collapse, Trim, Joined, Pieces, Lower, Map;
    LowerTrim(raw);
    var mapped := Map(Dash(Vendor), Lower(TrimSpace(raw)));
    TrimCollapseCommute(mapped);
    DashesJoin(mapped);
    PiecesOfMap(Vendor, Lower(TrimSpace(raw)));
    SamePieces(VendorBreak, Edge(Vendor), Lower(TrimSpace(raw)));
  }

  /** A model slug is the pieces, joined, but for a head that names the third Qwen family: there the dash
      before the 3 goes. */
  lemma ModelSlugJoins(raw: string)
    ensures var joined := Joined(Pieces(ModelBreak, Lower(TrimSpace(raw))));
            && (forall rest :: joined == "qwen-3-" + rest ==> ModelSlug(raw) == "qwen3-" + rest)
            && (forall rest :: joined == "qwen-3." + rest ==> ModelSlug(raw) == "qwen3." + rest)
            && ((forall rest :: joined != "qwen-3-" + rest && joined != "qwen-3." + rest) ==> ModelSlug(raw) == joined)
  {
    hide Collapse, Trim, Joined, Pieces, Lower, Map;
    LowerTrim(raw);
    var mapped := Map(Dash(Model), Lower(TrimSpace(raw)));
    DashesJoin(mapped);
    PiecesOfMap(Model, Lower(TrimSpace(raw)));
    SamePieces(ModelBreak, Edge(Model), Lower(TrimSpace(raw)));
    HeadOf(Joined(Pieces(ModelBreak, Lower(TrimSpace(raw)))));
  }

  lemma HeadOf(s: string)
    ensures forall rest :: s == "qwen-3-" + rest ==> QwenFamily(s) == "qwen3-" + rest
    ensures forall rest :: s == "qwen-3." + rest ==> QwenFamily(s) == "qwen3." + rest
    ensures (forall rest :: s != "qwen-3-" + rest && s != "qwen-3." + rest) ==> QwenFamily(s) == s
  {
    forall rest | s == "qwen-3-" + rest ensures QwenFamily(s) == "qwen3-" + rest { assert s[7..] == rest; }
    forall rest | s == "qwen-3." + rest ensures QwenFamily(s) == "qwen3." + rest {
      assert s[7..] == rest && s[6] == '.';
    }
    if "qwen-3-" <= s { assert s == "qwen-3-" + s[7..]; }
    if "qwen-3." <= s { assert s == "qwen-3." + s[7..]; }
  }

  /** Both heads at work. */
  lemma QwenHeads()
    ensures ModelSlug("qwen-3-32b") == "qwen3-32b" && ModelSlug("qwen-3.5") == "qwen3.5"
  {
    BasesAreSlugs();
    hide *;
    HeadOf("qwen-3-32b");
    HeadOf("qwen-3.5");
    TwoHeads();
    FixedBase("qwen-3-32b");
    FixedBase("qwen-3.5");
  }

  lemma TwoHeads()
    ensures "qwen-3-32b" == "qwen-3-" + "32b" && "qwen3-32b" == "qwen3-" + "32b"
    ensures "qwen-3.5" == "qwen-3." + "5" && "qwen3.5" == "qwen3." + "5"
  {
  }

  lemma BasesAreSlugs()
    ensures IsSlug(Model, "qwen-3-32b") && IsTrimmed(IsSpace, "qwen-3-32b")
    ensures IsSlug(Model, "qwen-3.5") && IsTrimmed(IsSpace, "qwen-3.5")
  {
  }

  lemma FixedBase(s: string)
    requires IsSlug(Model, s) && IsTrimmed(IsSpace, s)
    ensures ModelSlug(s) == QwenFamily(s)
  {
    ModelBaseIsSlug(s);
    CanonicalIsFixed(Model, s);
  }
}
