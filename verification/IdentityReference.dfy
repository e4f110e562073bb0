/** Model identity without the steps of the code: dates as numbers, channel words as text between breaks,
    and when an identifier is rejected (modelidentity/identity.go). */
module IdentityReference {
  import opened Text
  import opened Slugs
  import opened ModelIdentity

  // ---- Release suffixes as numbers --------------------------------------------------------------

  function DigitOf(n: nat): char
    requires n <= 9
  {
    ('0' as int + n) as char
  }

  function Two(n: nat): string
    requires n <= 99
  {
    [DigitOf(n / 10), DigitOf(n % 10)]
  }

  function Four(n: nat): string
    requires n <= 9999
  {
    Two(n / 100) + Two(n % 100)
  }

  function ValueOf(c: char): nat
    requires IsDigit(c)
  {
    c as int - '0' as int
  }

  lemma TwoDigits(s: string) returns (n: nat)
    requires |s| == 2 && AllDigits(s)
    ensures n <= 99 && s == Two(n)
    ensures Between("01", s, "12") <==> 1 <= n <= 12
    ensures Between("01", s, "31") <==> 1 <= n <= 31
  {
    assert IsDigit(s[0]) && IsDigit(s[1]);
    n := 10 * ValueOf(s[0]) + ValueOf(s[1]);
    TwoLess(s, "01");
    TwoLess("12", s);
    TwoLess("31", s);
  }

  lemma TwoLess(a: string, b: string)
    requires |a| == |b| == 2
    ensures Less(a, b) <==> a[0] < b[0] || (a[0] == b[0] && a[1] < b[1])
  {
    assert a[1..][1..] == "" && b[1..][1..] == "";
    assert Less(a[1..], b[1..]) <==> a[1] < b[1];
  }

  lemma TwoAreDigits(n: nat)
    requires n <= 99
    ensures AllDigits(Two(n)) && (Between("01", Two(n), "12") <==> 1 <= n <= 12)
    ensures Between("01", Two(n), "31") <==> 1 <= n <= 31
  {
    TwoLess(Two(n), "01");
    TwoLess("12", Two(n));
    TwoLess("31", Two(n));
  }

  lemma FourDigits(s: string) returns (n: nat)
    requires |s| == 4 && AllDigits(s)
    ensures n <= 9999 && s == Four(n)
  {
    HalvesAreDigits(s);
    var a := TwoDigits(s[..2]);
    var b := TwoDigits(s[2..]);
    n := 100 * a + b;
    assert s == s[..2] + s[2..];
    hide *;
    FourOfHalves(a, b);
  }

  lemma HalvesAreDigits(s: string)
    requires |s| == 4 && AllDigits(s)
    ensures AllDigits(s[..2]) && AllDigits(s[2..])
  {
    assert forall i | 0 <= i < 4 :: IsDigit(s[i]);
  }

  lemma FourOfHalves(a: nat, b: nat)
    requires a <= 99 && b <= 99
    ensures Four(100 * a + b) == Two(a) + Two(b)
  {
    hide Two;
    assert (100 * a + b) / 100 == a && (100 * a + b) % 100 == b;
  }

  lemma FourAreDigits(n: nat)
    requires n <= 9999
    ensures |Four(n)| == 4 && AllDigits(Four(n))
  {
    TwoAreDigits(n / 100);
    TwoAreDigits(n % 100);
  }

  /** YYYY-MM-DD or YYYYMMDD */
  ghost predicate NamesDate(x: string) {
    exists y: nat, m: nat, d: nat | y <= 9999 && 1 <= m <= 12 && 1 <= d <= 31 ::
      x == Four(y) + "-" + Two(m) + "-" + Two(d) || x == Four(y) + Two(m) + Two(d)
  }

  /** MM-YYYY or YYYY-MM */
  ghost predicate NamesMonth(x: string) {
    exists y: nat, m: nat | y <= 9999 && 1 <= m <= 12 :: x == Two(m) + "-" + Four(y) || x == Four(y) + "-" + Two(m)
  }

  ghost predicate NamesNumber(x: string) {
    exists n: nat | n <= 9999 :: x == Four(n)
  }

  lemma ReadsDate(x: string)
    requires DashedDate(x) || CompactDate(x)
    ensures NamesDate(x)
  {
    hide Less, AllDigits, Between;
    if DashedDate(x) {
      var y := FourDigits(x[..4]);
      var m := TwoDigits(x[5..7]);
      var d := TwoDigits(x[8..]);
      hide Two, Four;
      assert x == x[..4] + "-" + x[5..7] + "-" + x[8..];
    } else {
      var y := FourDigits(x[..4]);
      var m := TwoDigits(x[4..6]);
      var d := TwoDigits(x[6..]);
      hide Two, Four;
      assert x == x[..4] + x[4..6] + x[6..];
    }
  }

  lemma WritesDate(x: string)
    requires NamesDate(x)
    ensures DashedDate(x) || CompactDate(x)
  {
    hide Less, AllDigits, Between;
    var y: nat, m: nat, d: nat :| y <= 9999 && 1 <= m <= 12 && 1 <= d <= 31
        && (x == Four(y) + "-" + Two(m) + "-" + Two(d) || x == Four(y) + Two(m) + Two(d));
    FourAreDigits(y);
    TwoAreDigits(m);
    TwoAreDigits(d);
    hide Four;
    if x == Four(y) + "-" + Two(m) + "-" + Two(d) {
      assert x[..4] == Four(y) && x[5..7] == Two(m) && x[8..] == Two(d);
    } else {
      assert x[..4] == Four(y) && x[4..6] == Two(m) && x[6..] == Two(d);
    }
  }

  lemma ReadsMonth(x: string)
    requires MonthYear(x) || YearMonth(x)
    ensures NamesMonth(x)
  {
    hide Less, AllDigits, Between;
    if MonthYear(x) {
      var y := FourDigits(x[3..]);
      var m := TwoDigits(x[..2]);
      hide Two, Four;
      assert x == x[..2] + "-" + x[3..];
    } else {
      var y := FourDigits(x[..4]);
      var m := TwoDigits(x[5..]);
      hide Two, Four;
      assert x == x[..4] + "-" + x[5..];
    }
  }

  lemma WritesMonth(x: string)
    requires NamesMonth(x)
    ensures MonthYear(x) || YearMonth(x)
  {
    hide Less, AllDigits, Between;
    var y: nat, m: nat :| y <= 9999 && 1 <= m <= 12 && (x == Two(m) + "-" + Four(y) || x == Four(y) + "-" + Two(m));
    FourAreDigits(y);
    TwoAreDigits(m);
    hide Four;
    if x == Two(m) + "-" + Four(y) {
      assert x[..2] == Two(m) && x[3..] == Four(y);
    } else {
      assert x[..4] == Four(y) && x[5..] == Two(m);
    }
  }

  /** The suffixes the cutters take off: a date with dashes or without, a month and a year in either order,
      a number of four digits. */
  lemma SuffixesAreNumbers(x: string)
    ensures Suffix(PreciseDate, x) <==> NamesDate(x)
    ensures Suffix(Calendar, x) <==> NamesMonth(x)
    ensures Suffix(ReleaseNumber, x) <==> NamesNumber(x)
  {
    hide NamesDate, NamesMonth, DashedDate, CompactDate, MonthYear, YearMonth, AllDigits, Four;
    if DashedDate(x) || CompactDate(x) { ReadsDate(x); }
    if NamesDate(x) { WritesDate(x); }
    if MonthYear(x) || YearMonth(x) { ReadsMonth(x); }
    if NamesMonth(x) { WritesMonth(x); }
    if Release(x) { var n := FourDigits(x); }
    if n: nat :| n <= 9999 && x == Four(n) { FourAreDigits(n); }
  }

  // ---- Channel words ----------------------------------------------------------------------------

  predicate WordBreak(c: char) {
    c in ['-', '_', '.', '/', ':', ' ', '(', ')']
  }

  /** The text holds the word between breaks or its ends. */
  ghost predicate HoldsWord(s: string, word: string) {
    exists before, after :: SetsOff(s, before, word, after)
  }

  ghost predicate SetsOff(s: string, before: string, word: string, after: string) {
    && s == before + word + after
    && (before == "" || WordBreak(before[|before| - 1])) && (after == "" || WordBreak(after[0]))
  }

  lemma SetOffBehind(head: string, s: string, before: string, word: string, after: string)
    requires SetsOff(s, before, word, after) && (before == "" && head != "" ==> WordBreak(head[|head| - 1]))
    ensures SetsOff(head + s, head + before, word, after)
  {
    hide WordBreak;
    assert head + s == (head + before) + word + after;
  }

  lemma {:induction false} FieldIsSetOff(s: string, word: string) returns (before: string, after: string)
    requires word in Fields(s)
    ensures SetsOff(s, before, word, after) && word != "" && !TokenBreak(word[0])
    decreases |s|
  {
    var n := if TokenBreak(s[0]) then 1 else TokenLength(s);
    var head, tail := s[..n], s[n..];
    assert s == head + tail;
    if !TokenBreak(s[0]) && word == head {
      before, after := "", tail;
      assert s == "" + word + tail;
    } else {
      var b, a := FieldIsSetOff(tail, word);
      hide Fields;
      assert b == "" ==> tail[0] == word[0];
      SetOffBehind(head, tail, b, word, a);
      before, after := head + b, a;
    }
  }

  lemma SetOffIsField(s: string, before: string, word: string, after: string)
    requires SetsOff(s, before, word, after) && word != "" && Unbroken(word)
    ensures word in Fields(s)
  {
    hide Fields;
    assert s == before + (word + after);
    FieldsConcat(before, word + after);
    FieldsSplit(word, after);
    assert ([word] + Fields(after))[0] == word;
  }

  /** The check for release channels finds a name that holds one of the three words between breaks. */
  lemma ChannelsAreWords(value: string)
    ensures HasChannelToken(value)
            <==> var s := TrimSpace(Lower(value));
                 HoldsWord(s, "preview") || HoldsWord(s, "latest") || HoldsWord(s, "experimental")
  {
    LowerTrim(value);
    var s := TrimSpace(Lower(value));
    hide TrimSpace, Lower, SetsOff;
    if t :| t in Fields(s) && t in CHANNELS {
      var before, after := FieldIsSetOff(s, t);
      assert HoldsWord(s, t);
    }
    WordFound(s, "preview");
    WordFound(s, "latest");
    WordFound(s, "experimental");
  }

  lemma WordFound(s: string, word: string)
    requires word in CHANNELS
    ensures HoldsWord(s, word) ==> exists t :: t in Fields(s) && t in CHANNELS
  {
    ChannelsAreLetters(word);
    hide CHANNELS, SetsOff, Fields;
    if before, after :| SetsOff(s, before, word, after) { SetOffIsField(s, before, word, after); }
  }

  // ---- Rejection --------------------------------------------------------------------------------

  /** A name is rejected exactly if nothing is left of it but separators, or it holds a channel word. */
  lemma RejectedIff(raw: string)
    ensures var slug := ModelSlug(raw);
            Resolved(raw) == Rejected
            <==> || slug == ""
                 || HoldsWord(TrimSpace(Lower(slug)), "preview")
                 || HoldsWord(TrimSpace(Lower(slug)), "latest")
                 || HoldsWord(TrimSpace(Lower(slug)), "experimental")
  {
    ChannelsAreWords(ModelSlug(raw));
    hide HoldsWord, HasChannelToken, ModelSlug, TrimSpace, FirstCut;
  }
}
