/** Canonical model identity: release suffixes, channel tokens and snapshot aliases
    (modelidentity/identity.go). */
module ModelIdentity {
  import opened Text
  import opened Slugs

  // ---- Release suffixes -------------------------------------------------------------------

  predicate IsDigit(c: char) { '0' <= c <= '9' }

  predicate AllDigits(s: string) {
    s != "" && All(IsDigit, s)
  }

  predicate Between(lo: string, s: string, hi: string) {
    !Less(s, lo) && !Less(hi, s)
  }

  predicate ValidMonth(year: string, month: string) {
    && |year| == 4 && |month| == 2 && AllDigits(year) && AllDigits(month)
    && Between("01", month, "12")
  }

  predicate ValidDate(year: string, month: string, day: string) {
    ValidMonth(year, month) && |day| == 2 && AllDigits(day) && Between("01", day, "31")
  }

  /** YYYY-MM-DD */
  predicate DashedDate(x: string) {
    |x| == 10 && x[4] == '-' && x[7] == '-' && ValidDate(x[..4], x[5..7], x[8..])
  }

  /** YYYYMMDD */
  predicate CompactDate(x: string) {
    |x| == 8 && ValidDate(x[..4], x[4..6], x[6..])
  }

  /** MM-YYYY */
  predicate MonthYear(x: string) {
    |x| == 7 && x[2] == '-' && ValidMonth(x[3..], x[..2])
  }

  /** YYYY-MM */
  predicate YearMonth(x: string) {
    |x| == 7 && x[4] == '-' && ValidMonth(x[..4], x[5..])
  }

  /** A four-digit release number. */
  predicate Release(x: string) {
    |x| == 4 && AllDigits(x)
  }

  /** The suffixes the three cutters accept. */
  datatype Kind = PreciseDate | Calendar | ReleaseNumber

  predicate Suffix(kind: Kind, x: string) {
    match kind
    case PreciseDate => DashedDate(x) || CompactDate(x)
    case Calendar => MonthYear(x) || YearMonth(x)
    case ReleaseNumber => Release(x)
  }

  datatype Cut = NoCut | Cut(base: string, suffix: string)

  /** The last `n` runes of `m`, when a dash and at least one more rune precede them. */
  predicate EndsWith(m: string, n: nat, suffix: string -> bool) {
    |m| > n + 1 && m[|m| - n - 1] == '-' && suffix(m[|m| - n..])
  }

  function CutAt(m: string, n: nat): Cut
    requires |m| > n + 1
  {
    Cut(TrimSpace(m[..|m| - n - 1]), m[|m| - n..])
  }

  /** `strings.LastIndex(s, "-")`. */
  function LastDash(s: string): (i: int)
    ensures -1 <= i < |s|
    ensures i >= 0 ==> s[i] == '-'
    ensures forall j | i < j < |s| :: s[j] != '-'
  {
    if s == "" then -1
    else if s[|s| - 1] == '-' then |s| - 1
    else LastDash(s[..|s| - 1])
  }

  /** The cutters, on an identifier that is already trimmed. */
  function CutTrimmed(kind: Kind, m: string): Cut {
    match kind
    case PreciseDate =>
      if EndsWith(m, 10, DashedDate) then CutAt(m, 10)
      else if EndsWith(m, 8, CompactDate) then CutAt(m, 8)
      else NoCut
    case Calendar =>
      if EndsWith(m, 7, MonthYear) then CutAt(m, 7)
      else if EndsWith(m, 7, YearMonth) then CutAt(m, 7)
      else NoCut
    case ReleaseNumber =>
      if |m| <= 5 then NoCut else
      var dash := LastDash(m);
      if dash <= 0 || dash == |m| - 1 then NoCut
      else if Release(m[dash + 1..]) then Cut(TrimSpace(m[..dash]), m[dash + 1..])
      else NoCut
  }

  function CutSuffix(kind: Kind, modelID: string): Cut {
    CutTrimmed(kind, TrimSpace(modelID))
  }

  function CutPreciseDateSuffix(modelID: string): Cut { CutSuffix(PreciseDate, modelID) }

  function CutCalendarReleaseSuffix(modelID: string): Cut { CutSuffix(Calendar, modelID) }

  function CutReleaseSuffix(modelID: string): Cut { CutSuffix(ReleaseNumber, modelID) }

  /** `m` is a base, some whitespace, a dash and an accepted suffix. */
  ghost predicate Decomposes(kind: Kind, m: string, base: string, gap: string, suffix: string) {
    && m == base + gap + "-" + suffix
    && base != "" && IsTrimmed(IsSpace, base) && All(IsSpace, gap)
    && Suffix(kind, suffix)
  }

  lemma ReleaseIsSuffixCut(m: string)
    ensures CutTrimmed(ReleaseNumber, m) == if EndsWith(m, 4, Release) then CutAt(m, 4) else NoCut
  {
    var dash := LastDash(m);
    if EndsWith(m, 4, Release) {
      var x := m[|m| - 4..];
      assert forall j | 0 <= j < 4 :: IsDigit(x[j]) && x[j] == m[|m| - 4 + j];
      assert dash == |m| - 5;
    }
  }

  /** How many runes the cutter takes off a trimmed identifier; zero for none. */
  ghost function Width(kind: Kind, m: string): nat {
    match kind
    case PreciseDate => if EndsWith(m, 10, DashedDate) then 10 else if EndsWith(m, 8, CompactDate) then 8 else 0
    case Calendar => if EndsWith(m, 7, MonthYear) || EndsWith(m, 7, YearMonth) then 7 else 0
    case ReleaseNumber => if EndsWith(m, 4, Release) then 4 else 0
  }

  lemma CutIsWidth(kind: Kind, m: string)
    ensures var n := Width(kind, m);
            && (n != 0 ==> |m| > n + 1 && m[|m| - n - 1] == '-' && Suffix(kind, m[|m| - n..]))
            && CutTrimmed(kind, m) == if n == 0 then NoCut else CutAt(m, n)
  {
    if kind == ReleaseNumber { ReleaseIsSuffixCut(m); }
  }

  lemma CutAtDecomposes(kind: Kind, m: string, n: nat) returns (gap: string)
    requires IsTrimmed(IsSpace, m) && |m| > n + 1 && m[|m| - n - 1] == '-' && Suffix(kind, m[|m| - n..])
    ensures Decomposes(kind, m, CutAt(m, n).base, gap, CutAt(m, n).suffix)
  {
    var head := m[..|m| - n - 1];
    gap := TrimEnd(head);
    TrimTwice(head);
    assert m == head + "-" + m[|m| - n..];
  }

  /** Whatever a cutter returns can be put back together. */
  lemma CutIsSound(kind: Kind, modelID: string) returns (gap: string)
    requires CutSuffix(kind, modelID).Cut?
    ensures var c := CutSuffix(kind, modelID);
            Decomposes(kind, TrimSpace(modelID), c.base, gap, c.suffix)
  {
    TrimTwice(modelID);
    var m := TrimSpace(modelID);
    CutIsWidth(kind, m);
    gap := CutAtDecomposes(kind, m, Width(kind, m));
  }

  lemma DecompositionEnds(kind: Kind, m: string, base: string, gap: string, suffix: string)
    requires Decomposes(kind, m, base, gap, suffix)
    ensures var n := |suffix|;
            |m| > n + 1 && m[|m| - n - 1] == '-' && m[|m| - n..] == suffix && CutAt(m, n) == Cut(base, suffix)
    ensures IsTrimmed(IsSpace, m)
  {
    hide Suffix, Trim;
    var n := |suffix|;
    assert m[..|m| - n - 1] == "" + base + gap;
    TrimUnsplits(IsSpace, "", base, gap);
    DecompositionIsTrimmed(kind, m, base, gap, suffix);
    hide IsSpace, All;
  }

  lemma DecompositionIsTrimmed(kind: Kind, m: string, base: string, gap: string, suffix: string)
    requires Decomposes(kind, m, base, gap, suffix)
    ensures IsTrimmed(IsSpace, m)
  {
    SuffixEndsInDigit(kind, suffix);
    hide Suffix, All;
    assert m[0] == base[0] && m[|m| - 1] == suffix[|suffix| - 1];
  }

  lemma SuffixEndsInDigit(kind: Kind, x: string)
    requires Suffix(kind, x)
    ensures x != "" && IsDigit(x[|x| - 1])
  {
    DigitPositions(x);
  }

  lemma DigitPositions(x: string)
    ensures DashedDate(x) ==> IsDigit(x[2]) && IsDigit(x[5]) && IsDigit(x[9])
    ensures CompactDate(x) ==> IsDigit(x[0]) && IsDigit(x[2]) && IsDigit(x[3]) && IsDigit(x[7])
    ensures MonthYear(x) ==> IsDigit(x[1]) && IsDigit(x[4]) && IsDigit(x[6])
    ensures YearMonth(x) ==> IsDigit(x[1]) && IsDigit(x[2]) && IsDigit(x[6])
    ensures Release(x) ==> IsDigit(x[0]) && IsDigit(x[3])
  {
    if DashedDate(x) { assert IsDigit(x[..4][2]) && IsDigit(x[5..7][0]) && IsDigit(x[8..][1]); }
    if CompactDate(x) { assert IsDigit(x[..4][0]) && IsDigit(x[..4][2]) && IsDigit(x[..4][3]) && IsDigit(x[6..][1]); }
    if MonthYear(x) { assert IsDigit(x[..2][1]) && IsDigit(x[3..][1]) && IsDigit(x[3..][3]); }
    if YearMonth(x) { assert IsDigit(x[..4][1]) && IsDigit(x[..4][2]) && IsDigit(x[5..][1]); }
  }

  /** A dashed date is not read where a compact date ends. */
  lemma CompactIsNotDashed(m: string)
    requires EndsWith(m, 8, CompactDate)
    ensures !EndsWith(m, 10, DashedDate)
  {
    DigitPositions(m[|m| - 8..]);
    assert |m| > 11 ==> m[|m| - 10..][4] == m[|m| - 8..][2];
  }

  /** Each cutter inverts concatenation: base, optional whitespace, dash, suffix. */
  lemma CutIsComplete(kind: Kind, modelID: string, base: string, gap: string, suffix: string)
    requires Decomposes(kind, TrimSpace(modelID), base, gap, suffix)
    ensures CutSuffix(kind, modelID) == Cut(base, suffix)
  {
    var m := TrimSpace(modelID);
    DecompositionEnds(kind, m, base, gap, suffix);
    CutIsWidth(kind, m);
    SuffixIsWidth(kind, m, suffix);
    hide Width, Suffix, CutTrimmed, TrimSpace;
  }

  /** A trimmed identifier that ends in an accepted suffix loses just that suffix. */
  lemma SuffixIsWidth(kind: Kind, m: string, suffix: string)
    requires var n := |suffix|; |m| > n + 1 && m[|m| - n - 1] == '-' && m[|m| - n..] == suffix
    requires Suffix(kind, suffix)
    ensures Width(kind, m) == |suffix| != 0
  {
    hide IsDigit, AllDigits, ValidDate, ValidMonth;
    if kind == PreciseDate && CompactDate(suffix) { CompactIsNotDashed(m); }
  }

  lemma CutRoundTrip(kind: Kind, base: string, suffix: string)
    requires base != "" && IsTrimmed(IsSpace, base) && Suffix(kind, suffix)
    ensures CutSuffix(kind, base + "-" + suffix) == Cut(base, suffix)
  {
    var m := base + "-" + suffix;
    assert m == base + "" + "-" + suffix;
    DecompositionEnds(kind, m, base, "", suffix);
    TrimmedIsFixed(IsSpace, m);
    CutIsComplete(kind, m, base, "", suffix);
  }

  lemma WidthsExclude(m: string)
    requires Width(PreciseDate, m) != 0
    ensures Width(Calendar, m) == 0 && Width(ReleaseNumber, m) == 0
  {
    hide DashedDate, CompactDate, MonthYear, YearMonth, Release;
    var k, n := |m|, Width(PreciseDate, m);
    var x := m[k - n..];
    DigitPositions(x);
    assert m[k - 8] == x[n - 8] && m[k - 5] == x[n - 5];
  }

  /** A precise date leaves nothing for the calendar and release cutters. */
  lemma PreciseDateExcludesOthers(modelID: string)
    requires CutPreciseDateSuffix(modelID).Cut?
    ensures CutCalendarReleaseSuffix(modelID) == NoCut && CutReleaseSuffix(modelID) == NoCut
  {
    var m := TrimSpace(modelID);
    CutIsWidth(PreciseDate, m);
    CutIsWidth(Calendar, m);
    CutIsWidth(ReleaseNumber, m);
    WidthsExclude(m);
  }

  /** When both a calendar and a release cut apply, the year comes last: base-MM-YYYY. */
  lemma CalendarAndReleaseIsMonthYear(modelID: string)
    requires CutCalendarReleaseSuffix(modelID).Cut? && CutReleaseSuffix(modelID).Cut?
    ensures var m := TrimSpace(modelID); var k := |m|;
            && k > 8 && IsDigit(m[k - 6])
            && CutCalendarReleaseSuffix(modelID).base == TrimSpace(m[..k - 8])
            && CutReleaseSuffix(modelID).base == m[..k - 5]
  {
    TrimTwice(modelID);
    var m := TrimSpace(modelID);
    CutIsWidth(Calendar, m);
    CutIsWidth(ReleaseNumber, m);
    var k := |m|;
    var x, longer := m[k - 7..], m[..k - 5];
    DigitPositions(x);
    hide CutTrimmed, ValidMonth, ValidDate, AllDigits, Release;
    assert m[k - 5] == x[2] && m[k - 6] == x[1];
    assert longer[0] == m[0] && longer[|longer| - 1] == m[k - 6];
    TrimmedIsFixed(IsSpace, longer);
  }

  /** Of a calendar cut and a release cut of one identifier, the calendar base is shorter. */
  lemma CalendarBaseIsShorter(modelID: string)
    requires CutCalendarReleaseSuffix(modelID).Cut? && CutReleaseSuffix(modelID).Cut?
    ensures |CutCalendarReleaseSuffix(modelID).base| < |CutReleaseSuffix(modelID).base|
  {
    CalendarAndReleaseIsMonthYear(modelID);
  }

  // ---- Channel tokens -----------------------------------------------------------------------

  predicate TokenBreak(c: char) {
    c == '-' || c == '_' || c == '.' || c == '/' || c == ':' || c == ' ' || c == '(' || c == ')'
  }

  predicate Unbroken(s: string) {
    forall i | 0 <= i < |s| :: !TokenBreak(s[i])
  }

  function TokenLength(s: string): (n: nat)
    ensures n <= |s| && (n < |s| ==> TokenBreak(s[n]))
    ensures forall i | 0 <= i < n :: !TokenBreak(s[i])
  {
    if s == "" || TokenBreak(s[0]) then 0 else 1 + TokenLength(s[1..])
  }

  /** `strings.FieldsFunc(s, splitModelToken)`. */
  function Fields(s: string): seq<string> {
    if s == "" then []
    else if TokenBreak(s[0]) then Fields(s[1..])
    else [s[..TokenLength(s)]] + Fields(s[TokenLength(s)..])
  }

  const CHANNELS: set<string> := {"preview", "latest", "experimental"}

  predicate HasChannelToken(value: string) {
    exists t | t in Fields(Lower(TrimSpace(value))) :: t in CHANNELS
  }

  /** At a token break, and at either end, a string falls into its parts' tokens. */
  lemma {:induction false} FieldsConcat(a: string, b: string)
    requires a == "" || b == "" || TokenBreak(a[|a| - 1]) || TokenBreak(b[0])
    ensures Fields(a + b) == Fields(a) + Fields(b)
    decreases |a|
  {
    var ab := a + b;
    if a == "" || b == "" {
      assert ab == if a == "" then b else a;
    } else if TokenBreak(a[0]) {
      assert ab[1..] == a[1..] + b;
      FieldsConcat(a[1..], b);
    } else {
      var n := TokenLength(a);
      FirstTokenIn(a, b);
      FieldsConcat(a[n..], b);
    }
  }

  lemma TokenLengthIs(s: string, n: nat)
    requires n <= |s| && (n < |s| ==> TokenBreak(s[n])) && forall i | 0 <= i < n :: !TokenBreak(s[i])
    ensures TokenLength(s) == n
  {
    hide TokenLength, TokenBreak;
  }

  lemma FirstTokenIn(a: string, b: string)
    requires a != "" && b != "" && !TokenBreak(a[0]) && (TokenBreak(a[|a| - 1]) || TokenBreak(b[0]))
    ensures var n := TokenLength(a);
            0 < n <= |a| && TokenLength(a + b) == n && (a + b)[..n] == a[..n] && (a + b)[n..] == a[n..] + b
  {
    var n := TokenLength(a);
    assert n > 0;
    hide TokenBreak, TokenLength;
    FirstTokenStays(a, b, n);
    assert (a + b)[..n] == a[..n];
    assert (a + b)[n..] == a[n..] + b;
  }

  lemma FirstTokenStays(a: string, b: string, n: nat)
    requires b != "" && n <= |a| && TokenBreak(if n < |a| then a[n] else b[0])
    requires forall i | 0 <= i < n :: !TokenBreak(a[i])
    ensures TokenLength(a + b) == n
  {
    hide TokenBreak, TokenLength;
    var ab := a + b;
    forall i | 0 <= i < n ensures !TokenBreak(ab[i]) { assert ab[i] == a[i]; }
    assert ab[n] == if n < |a| then a[n] else b[0];
    TokenLengthIs(ab, n);
  }

  lemma FieldsSplit(a: string, b: string)
    requires a != "" && Unbroken(a) && (b != "" ==> TokenBreak(b[0]))
    ensures Fields(a + b) == [a] + Fields(b)
  {
    var s, n := a + b, |a|;
    assert forall i | 0 <= i < n :: !TokenBreak(s[i]) by {
      forall i | 0 <= i < n ensures !TokenBreak(s[i]) { assert s[i] == a[i]; }
    }
    var k := TokenLength(s);
    assert b != "" ==> s[n] == b[0];
    assert k == n;
    assert s[..n] == a && s[n..] == b;
  }

  lemma OneToken(t: string)
    requires t != "" && Unbroken(t)
    ensures Fields(t) == [t] && Fields("-" + t) == [t]
  {
    FieldsSplit(t, "");
    assert t + "" == t && ("-" + t)[1..] == t;
  }

  /** The text behind the last token break, possibly none. */
  function LastToken(s: string): (t: string)
    ensures |t| <= |s| && s[|s| - |t|..] == t && Unbroken(t)
    ensures |t| < |s| ==> TokenBreak(s[|s| - |t| - 1])
  {
    if s == "" || TokenBreak(s[|s| - 1]) then ""
    else
      var init := LastToken(s[..|s| - 1]);
      assert s[|s| - 1 - |init|..] == init + [s[|s| - 1]];
      init + [s[|s| - 1]]
  }

  /** The tokens are those before the last one, and the last one if there is any. */
  lemma FieldsOfLast(s: string)
    ensures var last := LastToken(s);
            Fields(s) == Fields(s[..|s| - |last|]) + if last == "" then [] else [last]
  {
    hide Fields, LastToken, TokenBreak, Unbroken;
    var last := LastToken(s);
    var before := s[..|s| - |last|];
    NoTokens();
    assert s == before + last;
    FieldsConcat(before, last);
    if last != "" {
      FieldsSplit(last, "");
      assert last + "" == last;
    }
  }

  lemma NoTokens()
    ensures Fields("") == []
  {
  }

  // ---- Candidates and aliases ---------------------------------------------------------------

  datatype AliasKind = Unspecified | Stable | Snapshot
  datatype Alias = Alias(kind: AliasKind, value: string)

  predicate HasSnapshotReleaseSuffix(modelID: string) {
    exists kind: Kind :: CutSuffix(kind, modelID).Cut? && !Blank(CutSuffix(kind, modelID).base)
  }

  function BuildExternalAliases(modelID: string, raw: string): seq<Alias> {
    var id, value := TrimSpace(modelID), TrimSpace(raw);
    if id == "" || value == "" || id == value then []
    else [Alias(if HasSnapshotReleaseSuffix(value) then Snapshot else AliasKind.Stable, value)]
  }

  function TrimSuffix(s: string, suffix: string): string {
    if |suffix| <= |s| && s[|s| - |suffix|..] == suffix then s[..|s| - |suffix|] else s
  }

  function AppendCandidate(out: seq<string>, candidate: string): (r: seq<string>)
    ensures out <= r
    ensures forall c :: c in r <==> c in out || (c == TrimSpace(candidate) && c != "")
  {
    var c := TrimSpace(candidate);
    if c == "" || c in out then out else out + [c]
  }

  predicate FromCut(cut: Cut, instruct: bool, c: string) {
    cut.Cut? && (c == TrimSpace(cut.base) || (instruct && c == TrimSpace(TrimSuffix(cut.base, "-instruct"))))
  }

  function AppendCut(out: seq<string>, cut: Cut, instruct: bool): (r: seq<string>)
    ensures out <= r
    ensures forall c :: c in r <==> c in out || (c != "" && FromCut(cut, instruct, c))
  {
    match cut
    case NoCut => out
    case Cut(base, _) =>
      var kept := AppendCandidate(out, base);
      if instruct then AppendCandidate(kept, TrimSuffix(base, "-instruct")) else kept
  }

  function ExternalModelCandidates(raw: string): seq<string> {
    var dated := AppendCut([], CutPreciseDateSuffix(raw), false);
    var monthly := AppendCut(dated, CutCalendarReleaseSuffix(raw), true);
    var numbered := AppendCut(monthly, CutReleaseSuffix(raw), true);
    AppendCandidate(numbered, raw)
  }

  datatype Identity = Rejected | Accepted(modelID: string, aliases: seq<Alias>)

  /** The first cut that applies, in the order the candidates are listed. */
  function FirstCut(slug: string): Cut {
    if CutPreciseDateSuffix(slug).Cut? then CutPreciseDateSuffix(slug)
    else if CutCalendarReleaseSuffix(slug).Cut? then CutCalendarReleaseSuffix(slug)
    else CutReleaseSuffix(slug)
  }

  /** What the candidate scan below amounts to. */
  function ResolvedSlug(slug: string): Identity {
    if slug == "" || HasChannelToken(slug) then Rejected
    else match FirstCut(slug)
    case NoCut => Accepted(if Blank(slug) then slug else TrimSpace(slug), [])
    case Cut(base, _) => Accepted(base, [Alias(Snapshot, TrimSpace(slug))])
  }

  function Resolved(raw: string): Identity {
    ResolvedSlug(ModelSlug(raw))
  }

  method FirstOther(candidates: seq<string>, slug: string) returns (i: nat)
    ensures i <= |candidates|
    ensures i < |candidates| ==> candidates[i] != slug
    ensures forall j | 0 <= j < i :: candidates[j] == slug
  {
    i := 0;
    while i < |candidates| && candidates[i] == slug
      invariant i <= |candidates|
      invariant forall j | 0 <= j < i :: candidates[j] == slug
    {
      i := i + 1;
    }
  }

  /** The first candidate that differs from the slug names the model, not the shortest one. */
  method NormalizeExternalModelIdentity(rawModelID: string) returns (r: Identity)
    ensures r == Resolved(rawModelID)
  {
    var slug := NormalizeExternalModelSlug(rawModelID);
    if slug == "" || HasChannelToken(slug) { return Rejected; }
    var candidates := ExternalModelCandidates(slug);
    var i := FirstOther(candidates, slug);
    ScanIsResolved(slug, candidates, i);
    if i < |candidates| {
      r := Accepted(candidates[i], BuildExternalAliases(candidates[i], slug));
    } else {
      r := Accepted(slug, []);
    }
  }

  lemma ScanIsResolved(slug: string, cs: seq<string>, i: nat)
    requires slug != "" && !HasChannelToken(slug) && cs == ExternalModelCandidates(slug)
    requires i <= |cs| && (i < |cs| ==> cs[i] != slug) && forall j | 0 <= j < i :: cs[j] == slug
    ensures ResolvedSlug(slug) == if i < |cs| then Accepted(cs[i], BuildExternalAliases(cs[i], slug))
                                  else Accepted(slug, [])
  {
    FirstCandidate(slug);
    if FirstCut(slug).Cut? {
      CutAlias(FirstKind(slug), slug);
      assert i == 0;
    } else {
      TrimTwice(slug);
    }
  }

  lemma CutFacts(kind: Kind, slug: string)
    requires CutSuffix(kind, slug).Cut?
    ensures var base := CutSuffix(kind, slug).base;
            base != "" && TrimSpace(base) == base && |base| < |TrimSpace(slug)|
  {
    var gap := CutIsSound(kind, slug);
    TrimmedIsFixed(IsSpace, CutSuffix(kind, slug).base);
  }

  lemma CutAlias(kind: Kind, slug: string)
    requires CutSuffix(kind, slug).Cut?
    ensures BuildExternalAliases(CutSuffix(kind, slug).base, slug) == [Alias(Snapshot, TrimSpace(slug))]
  {
    CutFacts(kind, slug);
    TrimTwice(slug);
    assert CutSuffix(kind, TrimSpace(slug)) == CutSuffix(kind, slug);
  }

  function FirstKind(slug: string): Kind {
    if CutPreciseDateSuffix(slug).Cut? then PreciseDate
    else if CutCalendarReleaseSuffix(slug).Cut? then Calendar
    else ReleaseNumber
  }

  /** The candidate list starts with the first cut, or holds only the trimmed slug. */
  lemma FirstCandidate(slug: string)
    ensures var cs := ExternalModelCandidates(slug);
            if FirstCut(slug).Cut? then cs != [] && cs[0] == FirstCut(slug).base != slug
            else cs == if Blank(slug) then [] else [TrimSpace(slug)]
  {
    hide CutSuffix, TrimSpace;
    var kind := FirstKind(slug);
    if FirstCut(slug).Cut? {
      CutFacts(kind, slug);
      TrimShrinks(slug);
      assert AppendCandidate([], FirstCut(slug).base) == [FirstCut(slug).base];
    }
  }

  // ---- What normalisation promises ----------------------------------------------------------

  /** The base taken is the shortest of the bases the three cutters offer. */
  lemma FirstCutIsShortest(slug: string, kind: Kind)
    requires CutSuffix(kind, slug).Cut?
    ensures FirstCut(slug).Cut? && |FirstCut(slug).base| <= |CutSuffix(kind, slug).base|
  {
    if CutPreciseDateSuffix(slug).Cut? { PreciseDateExcludesOthers(slug); }
    else if CutCalendarReleaseSuffix(slug).Cut? && CutReleaseSuffix(slug).Cut? { CalendarBaseIsShorter(slug); }
  }

  /** No cutter applies. */
  ghost predicate Uncut(slug: string) {
    forall kind: Kind :: CutSuffix(kind, slug) == NoCut
  }

  /** A snapshot alias is recorded exactly when a release suffix was cut, and the canonical
      identifier is then what stands before a dash and that suffix in the slug. */
  lemma IdentityShape(slug: string) returns (gap: string, suffix: string)
    requires ResolvedSlug(slug).Accepted?
    ensures var r := ResolvedSlug(slug);
            || (r.aliases == [] && (r.modelID == slug || r.modelID == TrimSpace(slug)) && Uncut(slug))
            || (r.aliases == [Alias(Snapshot, TrimSpace(slug))]
                && Decomposes(FirstKind(slug), TrimSpace(slug), r.modelID, gap, suffix))
  {
    gap, suffix := "", "";
    var kind := FirstKind(slug);
    if FirstCut(slug).Cut? {
      gap := CutIsSound(kind, slug);
      suffix := CutSuffix(kind, slug).suffix;
    } else {
      forall other: Kind ensures CutSuffix(other, slug) == NoCut {
        match other case PreciseDate => case Calendar => case ReleaseNumber =>
      }
    }
  }

  lemma TokensOf(value: string)
    requires IsTrimmed(IsSpace, value) && forall i | 0 <= i < |value| :: !('A' <= value[i] <= 'Z')
    ensures HasChannelToken(value) <==> exists t | t in Fields(value) :: t in CHANNELS
  {
    TrimmedIsFixed(IsSpace, value);
    LowerFixed(value);
    hide Fields, CHANNELS;
  }

  lemma PrefixHasNoChannelToken(slug: string, id: string, tail: string)
    requires slug == id + "-" + tail && IsTrimmed(IsSpace, id) && IsTrimmed(IsSpace, slug)
    requires forall i | 0 <= i < |slug| :: !('A' <= slug[i] <= 'Z')
    requires !HasChannelToken(slug)
    ensures !HasChannelToken(id)
  {
    hide Fields, CHANNELS, HasChannelToken, IsTrimmed;
    var rest := "-" + tail;
    assert slug == id + rest && rest[0] == '-';
    assert forall i | 0 <= i < |id| :: id[i] == slug[i];
    FieldsConcat(id, rest);
    TokensOf(id);
    TokensOf(slug);
  }

  lemma TokensIgnoreEdges(s: string)
    ensures HasChannelToken(TrimSpace(s)) == HasChannelToken(s)
  {
    TrimTwice(s);
  }

  lemma LowerRunes(slug: string)
    requires IsSlug(Model, slug)
    ensures forall i | 0 <= i < |TrimSpace(slug)| :: !('A' <= TrimSpace(slug)[i] <= 'Z')
  {
    TrimKeepsRunes(IsSpace, slug);
    var m := TrimSpace(slug);
    forall i | 0 <= i < |m| ensures !('A' <= m[i] <= 'Z') { assert m[i] in m; }
  }

  /** An accepted identifier names no channel, unless whitespace stands before the cut. */
  lemma ChannelTokenNeedsGap(slug: string) returns (gap: string, suffix: string)
    requires ResolvedSlug(slug).Accepted? && IsSlug(Model, slug)
    ensures var id := ResolvedSlug(slug).modelID;
            HasChannelToken(id) ==> gap != "" && Decomposes(FirstKind(slug), TrimSpace(slug), id, gap, suffix)
  {
    var id, m := ResolvedSlug(slug).modelID, TrimSpace(slug);
    gap, suffix := IdentityShape(slug);
    TokensIgnoreEdges(slug);
    if FirstCut(slug).Cut? && gap == "" {
      assert id + "" == id;
      LowerRunes(slug);
      TrimTwice(slug);
      PrefixHasNoChannelToken(m, id, suffix);
    }
  }

  /** Of the tokens of a cut base, only the last can differ from those of the slug. */
  lemma EarlierTokensStay(m: string, base: string, tail: string)
    requires m == base + tail
    ensures forall t | t in Fields(base[..|base| - |LastToken(base)|]) :: t in Fields(m)
  {
    hide Fields;
    var before, last := base[..|base| - |LastToken(base)|], LastToken(base);
    assert m == before + (last + tail);
    FieldsConcat(before, last + tail);
  }

  lemma LastTokenDecides(m: string, base: string, tail: string)
    requires m == base + tail && forall t | t in Fields(m) :: t !in CHANNELS
    ensures (exists t | t in Fields(base) :: t in CHANNELS) <==> LastToken(base) in CHANNELS
  {
    hide Fields, LastToken;
    EarlierTokensStay(m, base, tail);
    FieldsOfLast(base);
    assert "" !in CHANNELS;
    if LastToken(base) != "" {
      var n := |Fields(base)| - 1;
      assert Fields(base)[n] == LastToken(base);
    }
  }

  /** A cut base starts the trimmed slug. */
  lemma CutIsPrefix(slug: string) returns (tail: string)
    requires FirstCut(slug).Cut?
    ensures TrimSpace(slug) == FirstCut(slug).base + tail && IsTrimmed(IsSpace, FirstCut(slug).base)
  {
    FirstCutIsKind(slug);
    hide FirstCut, CutSuffix, Suffix, TrimSpace;
    var kind, base := FirstKind(slug), FirstCut(slug).base;
    var gap := CutIsSound(kind, slug);
    tail := gap + "-" + CutSuffix(kind, slug).suffix;
    assert TrimSpace(slug) == base + tail;
  }

  lemma FirstCutIsKind(slug: string)
    ensures FirstCut(slug).Cut? ==> FirstCut(slug) == CutSuffix(FirstKind(slug), slug)
  {
    hide CutSuffix;
  }

  lemma LastTokenSurvivesIff(slug: string)
    requires ResolvedSlug(slug).Accepted? && IsSlug(Model, slug)
    ensures HasChannelToken(ResolvedSlug(slug).modelID)
            <==> FirstCut(slug).Cut? && LastToken(FirstCut(slug).base) in CHANNELS
  {
    TokensIgnoreEdges(slug);
    if FirstCut(slug).Cut? {
      var m, base := TrimSpace(slug), FirstCut(slug).base;
      var tail := CutIsPrefix(slug);
      LowerRunes(slug);
      TrimTwice(slug);
      hide TrimSpace, IsTrimmed, FirstCut, HasChannelToken, Fields, LastToken, CHANNELS, IsSlug;
      assert forall i | 0 <= i < |base| :: base[i] == m[i];
      TokensOf(m);
      TokensOf(base);
      assert ResolvedSlug(slug).modelID == base;
      LastTokenDecides(m, base, tail);
    }
  }

  /** The text ends in a channel word, whitespace, a dash and an accepted suffix. */
  ghost predicate Hides(kind: Kind, m: string, before: string, word: string, gap: string, suffix: string) {
    && m == before + word + gap + "-" + suffix
    && (before == "" || TokenBreak(before[|before| - 1])) && word in CHANNELS
    && gap != "" && All(IsSpace, gap) && Suffix(kind, suffix)
  }

  predicate Letters(t: string) {
    t != "" && forall i | 0 <= i < |t| :: 'a' <= t[i] <= 'z'
  }

  lemma ChannelsAreLetters(word: string)
    requires word in CHANNELS
    ensures Letters(word) && Unbroken(word)
  {
    assert word == "preview" || word == "latest" || word == "experimental";
  }

  lemma LastTokenIs(before: string, word: string)
    requires word != "" && Unbroken(word) && (before == "" || TokenBreak(before[|before| - 1]))
    ensures LastToken(before + word) == word
  {
    var s := before + word;
    var last := LastToken(s);
    hide LastToken, TokenBreak;
    var n := |s|;
    assert s[n - |word|..] == word;
  }

  /** The hidden word is what the cutter leaves at the end. */
  lemma HiddenDecomposes(kind: Kind, m: string, before: string, word: string, gap: string, suffix: string)
    requires IsTrimmed(IsSpace, m) && Hides(kind, m, before, word, gap, suffix)
    ensures Decomposes(kind, m, before + word, gap, suffix)
  {
    ChannelsAreLetters(word);
    hide Suffix, CHANNELS;
    var base := before + word;
    assert m == base + gap + "-" + suffix && m[0] == base[0] && base[|base| - 1] == word[|word| - 1];
  }

  /** A cut that leaves whitespace before it is the first that applies. */
  lemma GapCutIsFirst(kind: Kind, slug: string, base: string, gap: string, suffix: string)
    requires gap != "" && Decomposes(kind, TrimSpace(slug), base, gap, suffix)
    ensures FirstCut(slug) == Cut(base, suffix)
  {
    CutIsComplete(kind, slug, base, gap, suffix);
    if CutPreciseDateSuffix(slug).Cut? { PreciseDateExcludesOthers(slug); }
    if kind == ReleaseNumber && CutCalendarReleaseSuffix(slug).Cut? {
      CalendarAndReleaseIsMonthYear(slug);
    }
  }

  /** When the promise that the identifier names no channel fails: exactly if the slug ends in a channel
      word, whitespace, a dash and a release suffix. The check reads the word and the whitespace as one
      longer word, and the cut drops the whitespace. */
  lemma ChannelTokenSurvivesIff(slug: string)
    requires ResolvedSlug(slug).Accepted? && IsSlug(Model, slug)
    ensures HasChannelToken(ResolvedSlug(slug).modelID)
            <==> exists kind, before, word, gap, suffix :: Hides(kind, TrimSpace(slug), before, word, gap, suffix)
  {
    hide *;
    LastTokenSurvivesIff(slug);
    TrimTwice(slug);
    if HasChannelToken(ResolvedSlug(slug).modelID) {
      var kind, before, word, gap, suffix := HiddenParts(slug);
    }
    forall kind, before, word, gap, suffix | Hides(kind, TrimSpace(slug), before, word, gap, suffix)
      ensures HasChannelToken(ResolvedSlug(slug).modelID)
    {
      HiddenIsLast(kind, slug, before, word, gap, suffix);
    }
  }

  lemma HiddenIsLast(kind: Kind, slug: string, before: string, word: string, gap: string, suffix: string)
    requires Hides(kind, TrimSpace(slug), before, word, gap, suffix)
    ensures FirstCut(slug).Cut? && LastToken(FirstCut(slug).base) in CHANNELS
  {
    TrimTwice(slug);
    HiddenDecomposes(kind, TrimSpace(slug), before, word, gap, suffix);
    ChannelsAreLetters(word);
    hide FirstCut, LastToken, TokenBreak, CHANNELS, TrimSpace, Suffix, Decomposes;
    GapCutIsFirst(kind, slug, before + word, gap, suffix);
    LastTokenIs(before, word);
  }

  lemma LastOfBase(kind: Kind, m: string, base: string, gap: string, suffix: string)
    returns (before: string, word: string)
    requires gap != "" && Decomposes(kind, m, base, gap, suffix) && LastToken(base) in CHANNELS
    ensures Hides(kind, m, before, word, gap, suffix)
  {
    hide LastToken, TokenBreak, CHANNELS, Suffix, IsTrimmed;
    word := LastToken(base);
    before := base[..|base| - |word|];
    assert base == before + word;
  }

  lemma HiddenParts(slug: string)
    returns (kind: Kind, before: string, word: string, gap: string, suffix: string)
    requires ResolvedSlug(slug).Accepted? && IsSlug(Model, slug) && HasChannelToken(ResolvedSlug(slug).modelID)
    ensures Hides(kind, TrimSpace(slug), before, word, gap, suffix)
  {
    LastTokenSurvivesIff(slug);
    assert ResolvedSlug(slug).modelID == FirstCut(slug).base;
    gap, suffix := ChannelTokenNeedsGap(slug);
    kind := FirstKind(slug);
    hide *;
    before, word := LastOfBase(kind, TrimSpace(slug), FirstCut(slug).base, gap, suffix);
  }

  /** Without whitespace other than U+0020 the promise holds in full: the identifier is the slug with no
      alias, or what stands before a dash and a release suffix in it, with the slug as its one snapshot
      alias; and it names no channel. */
  lemma SpacesOnlyIdentity(raw: string) returns (suffix: string)
    requires forall c | c in raw :: IsSpace(c) ==> c == ' '
    requires Resolved(raw).Accepted?
    ensures var r, slug := Resolved(raw), ModelSlug(raw);
            && !HasChannelToken(r.modelID)
            && (|| (r == Accepted(slug, []) && Uncut(slug))
                || (r.aliases == [Alias(Snapshot, slug)] && slug == r.modelID + "-" + suffix
                    && Suffix(FirstKind(slug), suffix)))
  {
    var slug := ModelSlug(raw);
    SpacesOnlySlugHasNoSpace(raw);
    SlugsAreCanonical(raw);
    hide ModelSlug, HasChannelToken, Suffix, CutTrimmed, IsSlug, BuildExternalAliases;
    assert slug != "" ==> slug[0] in slug && slug[|slug| - 1] in slug;
    TrimmedIsFixed(IsSpace, slug);
    var gap0, suffix0 := IdentityShape(slug);
    suffix := suffix0;
    var gap, other := ChannelTokenNeedsGap(slug);
    var id := Resolved(raw).modelID;
    if Resolved(raw).aliases != [] { NoGap(slug, id, gap0, suffix0); }
    if HasChannelToken(id) { NoGap(slug, id, gap, other); }
  }

  lemma NoGap(slug: string, id: string, gap: string, suffix: string)
    requires Decomposes(FirstKind(slug), slug, id, gap, suffix) && forall c | c in slug :: !IsSpace(c)
    ensures gap == "" && slug == id + "-" + suffix
  {
    GapIsPart(slug, id, gap, suffix);
    assert id + "" == id;
  }

  lemma GapIsPart(slug: string, id: string, gap: string, suffix: string)
    requires slug == id + gap + "-" + suffix
    ensures gap != "" ==> gap[0] in slug
  {
    if gap != "" {
      assert slug == (id + gap) + ("-" + suffix) && (id + gap)[|id|] == gap[0];
      assert slug[|id|] == gap[0] && slug[|id|] in slug;
    }
  }

  function Hidden(t: string): string {
    t + "\t" + "-" + "2024"
  }

  lemma HiddenRunes(t: string)
    requires Letters(t)
    ensures var m, n := Hidden(t), |t|;
            && |m| == n + 6 && m[n] == '\t' && m[n + 1] == '-' && m[n + 2] == '2' && m[n + 3] == '0' && m[n + 4] == '2'
               && m[n + 5] == '4'
            && forall i | 0 <= i < n :: 'a' <= m[i] <= 'z'
  {
    assert forall i | 0 <= i < |t| :: Hidden(t)[i] == t[i];
  }

  lemma HiddenIsCanonical(t: string)
    requires Letters(t)
    ensures IsSlug(Model, Hidden(t)) && IsTrimmed(IsSpace, Hidden(t))
    ensures forall i | 0 <= i < |Hidden(t)| :: !('A' <= Hidden(t)[i] <= 'Z')
  {
    HiddenRunes(t);
    var m, n := Hidden(t), |t|;
    forall i | 0 <= i < |m| ensures !Separator(Model, m[i]) && !('A' <= m[i] <= 'Z') && (m[i] == '-' ==> i == n + 1) {
      assert i < n || i == n || i == n + 1 || i == n + 2 || i == n + 3 || i == n + 4 || i == n + 5;
    }
  }

  lemma OtherFamilyIsFixed(m: string)
    requires |m| >= 6 && (m[4] != '-' || m[5] != '3')
    ensures QwenFamily(m) == m
  {
    assert "qwen-3-"[4] == '-' && "qwen-3."[4] == '-' && "qwen-3-"[5] == '3' && "qwen-3."[5] == '3';
  }

  lemma HiddenIsFixed(t: string)
    requires Letters(t)
    ensures ModelSlug(Hidden(t)) == Hidden(t)
  {
    hide Hidden, Slug, ModelBase, QwenFamily, IsSlug, IsTrimmed;
    var m := Hidden(t);
    HiddenRunes(t);
    HiddenIsCanonical(t);
    CanonicalIsFixed(Model, m);
    ModelBaseIsSlug(m);
    OtherFamilyIsFixed(m);
  }

  lemma HiddenFields(t: string)
    requires Letters(t)
    ensures Fields(Hidden(t)) == [t + "\t", "2024"] && Fields(t) == [t]
  {
    hide Fields;
    assert Hidden(t) == (t + "\t") + ("-" + "2024");
    FieldsConcat(t + "\t", "-" + "2024");
    OneToken(t + "\t");
    OneToken("2024");
    OneToken(t);
  }

  lemma NeitherIsChannel(a: string, b: string)
    requires a !in CHANNELS && b !in CHANNELS
    ensures !exists t | t in [a, b] :: t in CHANNELS
  {
    hide CHANNELS;
  }

  lemma HiddenHasNoToken(t: string)
    requires Letters(t)
    ensures !HasChannelToken(Hidden(t))
  {
    hide Fields, Hidden, CHANNELS, HasChannelToken, IsSlug;
    HiddenIsCanonical(t);
    HiddenFields(t);
    TokensOf(Hidden(t));
    ChannelsEndInLetters(t + "\t");
    ChannelsEndInLetters("2024");
    hide *;
    NeitherIsChannel(t + "\t", "2024");
  }

  lemma ChannelIsToken(t: string)
    requires Letters(t) && t in CHANNELS
    ensures HasChannelToken(t)
  {
    hide Fields, Hidden, CHANNELS, HasChannelToken;
    HiddenFields(t);
    TokensOf(t);
    hide Letters, IsSpace;
    assert [t][0] == t;
    assert t in Fields(t);
  }

  lemma HiddenTokens(t: string)
    requires Letters(t) && t in CHANNELS
    ensures !HasChannelToken(Hidden(t)) && HasChannelToken(t)
  {
    hide *;
    HiddenHasNoToken(t);
    ChannelIsToken(t);
  }

  lemma ChannelsEndInLetters(t: string)
    requires t != "" && !('a' <= t[|t| - 1] <= 'z')
    ensures t !in CHANNELS
  {
    assert "preview"[6] == 'w' && "latest"[5] == 't' && "experimental"[11] == 'l';
  }

  lemma HiddenCut(t: string)
    requires Letters(t)
    ensures FirstCut(Hidden(t)) == Cut(t, "2024")
  {
    var m := Hidden(t);
    HiddenIsCanonical(t);
    HiddenRunes(t);
    TrimmedIsFixed(IsSpace, m);
    CutIsComplete(ReleaseNumber, m, t, "\t", "2024");
    CutIsWidth(PreciseDate, m);
    CutIsWidth(Calendar, m);
  }

  /** For every channel word there is an input that fails: a tab before the cut hides the word from
      the check, and is cut off with the suffix. */
  lemma TabHidesChannelToken(t: string)
    requires Letters(t) && t in CHANNELS
    ensures Resolved(Hidden(t)).Accepted? && HasChannelToken(Resolved(Hidden(t)).modelID)
  {
    HiddenIsFixed(t);
    HiddenTokens(t);
    HiddenCut(t);
    hide Hidden, FirstCut, HasChannelToken, ModelSlug, CHANNELS, Letters, TrimSpace;
    assert Resolved(Hidden(t)) == Accepted(t, [Alias(Snapshot, TrimSpace(Hidden(t)))]) by { HiddenIsSome(t); }
  }

  lemma HiddenIsSome(t: string)
    ensures Hidden(t) != ""
  {
  }

  /** Everything the candidate list holds: each cut base, the "-instruct" variants, the slug. */
  lemma CandidatesAre(slug: string)
    ensures forall c | c in ExternalModelCandidates(slug) :: c != "" &&
              (FromCut(CutPreciseDateSuffix(slug), false, c) || FromCut(CutCalendarReleaseSuffix(slug), true, c)
               || FromCut(CutReleaseSuffix(slug), true, c) || c == TrimSpace(slug))
    ensures forall c | c != "" && FirstKind(slug) != PreciseDate && FromCut(FirstCut(slug), true, c) ::
              c in ExternalModelCandidates(slug)
  {
  }

  predicate HasVariant(base: string) {
    TrimSuffix(base, "-instruct") != base && !Blank(TrimSuffix(base, "-instruct"))
  }

  lemma VariantIsShorter(base: string)
    ensures TrimSuffix(base, "-instruct") != base ==> |TrimSpace(TrimSuffix(base, "-instruct"))| < |base|
  {
  }

  /** The candidate taken is the shortest one listed unless the cut base ends in "-instruct"
      after a calendar or release cut. */
  lemma ShortestCandidateIff(slug: string)
    requires FirstCut(slug).Cut?
    ensures var base := FirstCut(slug).base;
            (forall c | c in ExternalModelCandidates(slug) :: |base| <= |c|)
            <==> (FirstKind(slug) == PreciseDate || !HasVariant(base))
  {
    var kind := FirstKind(slug);
    var base := FirstCut(slug).base;
    var variant := TrimSpace(TrimSuffix(base, "-instruct"));
    CandidatesAre(slug);
    VariantIsShorter(base);
    CutFacts(kind, slug);
    if kind != PreciseDate && HasVariant(base) {
      assert variant in ExternalModelCandidates(slug);
    } else {
      forall c | c in ExternalModelCandidates(slug) ensures |base| <= |c| {
        CandidateLength(slug, c);
      }
    }
  }

  /** Behind a base that does not end in a digit, four digits are read as nothing but a release. */
  lemma ReleaseCutIsFirst(base: string, suffix: string)
    requires base != "" && IsTrimmed(IsSpace, base) && !IsDigit(base[|base| - 1]) && Release(suffix)
    ensures FirstCut(base + "-" + suffix) == Cut(base, suffix) && FirstKind(base + "-" + suffix) == ReleaseNumber
  {
    var m := base + "-" + suffix;
    assert m == base + "" + "-" + suffix;
    assert m[|m| - 5] == '-' && m[|m| - 6] == base[|base| - 1];
    assert Decomposes(ReleaseNumber, m, base, "", suffix);
    hide Release, DashedDate, CompactDate, MonthYear, YearMonth, IsDigit, IsTrimmed, TrimSpace;
    CutRoundTrip(ReleaseNumber, base, suffix);
    DecompositionIsTrimmed(ReleaseNumber, m, base, "", suffix);
    OnlyRelease(m);
    NothingElseCut(m);
    hide CutTrimmed, Width, Decomposes, Suffix;
  }

  lemma NothingElseCut(m: string)
    requires IsTrimmed(IsSpace, m) && Width(PreciseDate, m) == 0 && Width(Calendar, m) == 0
    ensures CutPreciseDateSuffix(m) == NoCut && CutCalendarReleaseSuffix(m) == NoCut
  {
    TrimmedIsFixed(IsSpace, m);
    hide CutTrimmed, Width, TrimSpace;
    CutIsWidth(PreciseDate, m);
    CutIsWidth(Calendar, m);
  }

  lemma OnlyRelease(m: string)
    requires |m| > 5 && m[|m| - 5] == '-' && !IsDigit(m[|m| - 6])
    ensures Width(PreciseDate, m) == 0 && Width(Calendar, m) == 0
  {
    hide DashedDate, CompactDate, MonthYear, YearMonth;
    var k := |m|;
    if k > 11 { DigitPositions(m[k - 10..]); assert m[k - 10..][5] == m[k - 5]; }
    if k > 9 { DigitPositions(m[k - 8..]); assert m[k - 8..][3] == m[k - 5]; }
    if k > 8 { DigitPositions(m[k - 7..]); assert m[k - 7..][1] == m[k - 6] && m[k - 7..][2] == m[k - 5]; }
  }

  function Variant(t: string): string {
    t + "-" + "instruct"
  }

  function Released(t: string): string {
    Variant(t) + "-" + "2024"
  }

  lemma ThreeTokens(a: string, b: string, c: string)
    requires a != "" && b != "" && c != ""
    requires Unbroken(a) && Unbroken(b) && Unbroken(c)
    ensures Fields(a + "-" + b + "-" + c) == [a, b, c]
  {
    OneToken(a);
    OneToken(b);
    OneToken(c);
    hide Fields, Unbroken;
    DashFirst(b);
    DashFirst(c);
    Regroup(a, "-", b, "-", c);
    hide *;
    var second, third := "-" + b, "-" + c;
    FieldsConcat(second, third);
    FieldsConcat(a, second + third);
  }

  lemma DashFirst(b: string)
    ensures ("-" + b)[0] == '-' && TokenBreak('-')
  {
  }

  lemma Regroup(a: string, b: string, c: string, d: string, e: string)
    ensures a + b + c + d + e == a + ((b + c) + (d + e))
  {
  }

  lemma NoChannelAmong(m: string, a: string, b: string, c: string)
    requires m == a + "-" + b + "-" + c && a != "" && b != "" && c != "" && Unbroken(a) && Unbroken(b) && Unbroken(c)
    requires IsTrimmed(IsSpace, m) && forall i | 0 <= i < |m| :: !('A' <= m[i] <= 'Z')
    requires a !in CHANNELS && b !in CHANNELS && c !in CHANNELS
    ensures !HasChannelToken(m)
  {
    ThreeTokens(a, b, c);
    hide Fields, CHANNELS, HasChannelToken, Unbroken;
    TokensOf(m);
  }

  lemma ReleasedRunes(t: string)
    requires Letters(t)
    ensures var m, n := Released(t), |t|;
            && |m| == n + 14 && m[n] == '-' && m[n + 9] == '-'
            && (forall i | 0 <= i < n || n < i < n + 9 :: 'a' <= m[i] <= 'z')
               && (forall i | n + 9 < i < n + 14 :: '0' <= m[i] <= '9')
  {
    var m, n := Released(t), |t|;
    var word, year := "instruct", "2024";
    assert forall i | 0 <= i < n :: m[i] == t[i];
    assert forall i | 0 <= i < 8 :: m[n + 1 + i] == word[i] && 'a' <= word[i] <= 'z';
    assert forall i | 0 <= i < 4 :: m[n + 10 + i] == year[i] && '0' <= year[i] <= '9';
  }

  lemma ReleasedIsFixed(t: string)
    requires Letters(t)
    ensures ModelSlug(Released(t)) == Released(t) && TrimSpace(Released(t)) == Released(t)
    ensures forall i | 0 <= i < |Released(t)| :: !('A' <= Released(t)[i] <= 'Z')
    ensures IsTrimmed(IsSpace, Released(t))
  {
    hide Released, Slug, ModelBase, QwenFamily;
    var m := Released(t);
    ReleasedRunes(t);
    RunesAreCanonical(m, |t|);
    hide IsSlug, IsTrimmed;
    CanonicalIsFixed(Model, m);
    ModelBaseIsSlug(m);
    OtherFamilyIsFixed(m);
    TrimmedIsFixed(IsSpace, m);
  }

  lemma RunesAreCanonical(m: string, n: nat)
    requires n > 0 && |m| == n + 14 && m[n] == '-' && m[n + 9] == '-'
    requires (forall i | 0 <= i < n || n < i < n + 9 :: 'a' <= m[i] <= 'z')
            && (forall i | n + 9 < i < n + 14 :: '0' <= m[i] <= '9')
    ensures IsSlug(Model, m) && IsTrimmed(IsSpace, m)
  {
    forall i | 0 <= i < |m| ensures !Separator(Model, m[i]) && !('A' <= m[i] <= 'Z')
      && (m[i] == '-' ==> i == n || i == n + 9) {
      assert i < n || i == n || n < i < n + 9 || i == n + 9 || i > n + 9;
    }
  }

  lemma ReleasedTokens(t: string)
    requires Letters(t) && t !in CHANNELS
    ensures !HasChannelToken(Released(t))
  {
    ReleasedIsFixed(t);
    UnbrokenParts(t);
    ChannelsAreOthers();
    hide IsTrimmed, CHANNELS, HasChannelToken, ModelSlug, Unbroken, Letters, TrimSpace;
    NoChannelAmong(Released(t), t, "instruct", "2024");
  }

  lemma UnbrokenParts(t: string)
    requires Letters(t)
    ensures t != "" && Unbroken(t) && Unbroken("instruct") && Unbroken("2024")
  {
  }

  lemma ChannelsAreOthers()
    ensures "instruct" !in CHANNELS && "2024" !in CHANNELS
  {
    assert |"instruct"| == 8 && |"2024"| == 4 && |"preview"| == 7 && |"latest"| == 6 && |"experimental"| == 12;
  }

  lemma ReleasedCut(t: string)
    requires Letters(t)
    ensures FirstCut(Released(t)) == Cut(Variant(t), "2024") && FirstKind(Released(t)) == ReleaseNumber
  {
    var base := Variant(t);
    assert base[0] == t[0] && base[|base| - 1] == 't' && AllDigits("2024");
    hide Variant;
    ReleaseCutIsFirst(base, "2024");
  }

  lemma VariantOf(t: string)
    requires Letters(t)
    ensures TrimSpace(TrimSuffix(Variant(t), "-instruct")) == t && t != ""
  {
    var base := Variant(t);
    assert "-" + "instruct" == "-instruct";
    assert base == t + "-instruct";
    assert base[|base| - 9..] == "-instruct" && base[..|base| - 9] == t;
    TrimmedIsFixed(IsSpace, t);
  }

  /** Inputs that show it, `foo-instruct-2024` among them: `foo` is a candidate, and the longer
      `foo-instruct` is taken. */
  lemma InstructVariantIsPassedOver(t: string)
    requires Letters(t) && t !in CHANNELS
    ensures Resolved(Released(t)) == Accepted(Variant(t), [Alias(Snapshot, Released(t))])
    ensures t in ExternalModelCandidates(Released(t)) && |t| < |Variant(t)|
  {
    ReleasedIsFixed(t);
    ReleasedTokens(t);
    ReleasedCut(t);
    VariantOf(t);
    ReleasedRunes(t);
    hide HasChannelToken, FirstCut, FirstKind, ModelSlug, Released, TrimSpace, CHANNELS, Letters,
        ExternalModelCandidates;
    CandidatesAre(Released(t));
    assert FromCut(FirstCut(Released(t)), true, t);
  }

  lemma FooInstruct()
    ensures Letters("foo") && "foo" !in CHANNELS && Released("foo") == "foo-instruct-2024"
  {
    assert |"foo"| == 3 && |"preview"| == 7 && |"latest"| == 6 && |"experimental"| == 12;
  }

  lemma FromCutLength(kind: Kind, slug: string, instruct: bool, c: string)
    requires CutSuffix(kind, slug).Cut? && FromCut(CutSuffix(kind, slug), instruct, c) && c != ""
    requires !instruct || !HasVariant(CutSuffix(kind, slug).base)
    ensures |FirstCut(slug).base| <= |c|
  {
    CutFacts(kind, slug);
    FirstCutIsShortest(slug, kind);
  }

  lemma CandidateLength(slug: string, c: string)
    requires FirstCut(slug).Cut? && c in ExternalModelCandidates(slug)
    requires FirstKind(slug) == PreciseDate || !HasVariant(FirstCut(slug).base)
    ensures |FirstCut(slug).base| <= |c|
  {
    CandidatesAre(slug);
    CutFacts(FirstKind(slug), slug);
    if FromCut(CutPreciseDateSuffix(slug), false, c) {
      FromCutLength(PreciseDate, slug, false, c);
    } else if FromCut(CutCalendarReleaseSuffix(slug), true, c) {
      if FirstKind(slug) == PreciseDate { PreciseDateExcludesOthers(slug); }
      FromCutLength(Calendar, slug, true, c);
    } else if FromCut(CutReleaseSuffix(slug), true, c) {
      if FirstKind(slug) == PreciseDate { PreciseDateExcludesOthers(slug); }
      if FirstKind(slug) == Calendar { ReleaseVariant(slug); }
      FromCutLength(ReleaseNumber, slug, true, c);
    }
  }

  /** After a calendar cut the release base ends in a digit, so it has no "-instruct" variant. */
  lemma ReleaseVariant(slug: string)
    requires CutCalendarReleaseSuffix(slug).Cut? && CutReleaseSuffix(slug).Cut?
    ensures TrimSuffix(CutReleaseSuffix(slug).base, "-instruct") == CutReleaseSuffix(slug).base
  {
    CalendarAndReleaseIsMonthYear(slug);
    var base := CutReleaseSuffix(slug).base;
    assert 9 <= |base| ==> base[|base| - 9..][8] == base[|base| - 1];
  }
}
