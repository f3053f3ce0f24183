/**
 Ticket folios: the counter that lives inside the sale's transaction, how a folio is
 written, and the resynchronisation that reads the numbers back.
 */
module TicketFolio {
  import opened Wrappers
  import opened DecimalText
  import opened SerializableRetry

  const PAD: nat := 3

  function Padded(n: nat): (s: string)
    ensures |s| > 0 && IsNumeral(s)
  {
    var digits := Digits(n);
    if |digits| < PAD then Zeros(PAD - |digits|) + digits else digits
  }

  function HasText(s: Option<string>): bool {
    s.Some? && s.value != ""
  }

  function Format(prefix: Option<string>, suffix: Option<string>, n: nat): string {
    if HasText(prefix) && HasText(suffix) then prefix.value + "-" + Padded(n) + "-" + suffix.value
    else if HasText(prefix) then prefix.value + "-" + Padded(n)
    else if HasText(suffix) then Padded(n) + "-" + suffix.value
    else Padded(n)
  }

  // ------------------------------------------------------------------------
  // Reading the number back
  // ------------------------------------------------------------------------

  /** The segments between hyphens. */
  function Split(s: string): (segments: seq<string>)
    ensures |segments| > 0
  {
    if s == [] then [""]
    else if s[0] == '-' then [""] + Split(s[1..])
    else var rest := Split(s[1..]); [[s[0]] + rest[0]] + rest[1..]
  }

  const MAX_DIGITS: nat := 15

  /** The segments a number is read from: one to fifteen digits. */
  predicate IsCandidate(segment: string) {
    IsNumeral(segment) && 1 <= |segment| <= MAX_DIGITS
  }

  function Greater(a: Option<nat>, b: Option<nat>): Option<nat> {
    if a.None? then b else if b.None? then a else if a.value >= b.value then a else b
  }

  function MaxOf(segments: seq<string>): Option<nat> {
    if segments == [] then None
    else Greater(if IsCandidate(segments[0]) then Some(Value(segments[0])) else None, MaxOf(segments[1..]))
  }

  /** The number read from a folio: the greatest of its numeric segments. */
  function MaxNumericSegment(folio: string): Option<nat> {
    MaxOf(Split(folio))
  }

  /** The number in three digits or, without a leading zero, in more. */
  ghost predicate WritesNumber(s: string, n: nat) {
    IsNumeral(s) && Value(s) == n && |s| >= 3 && (|s| > 3 ==> s[0] != '0')
  }

  lemma {:induction false} DigitsLead(n: nat)
    ensures n > 0 ==> Digits(n)[0] != '0'
    ensures n >= 10 ==> |Digits(n)| > 1
  {
    if n >= 10 { DigitsLead(n / 10); }
  }

  lemma PaddedIs(n: nat)
    ensures WritesNumber(Padded(n), n)
  {
    PaddedValue(n);
    DigitsLead(n);
    if n == 0 { assert Digits(0) == "0"; }
  }

  /** The examples given with the source, and a number beyond three digits. */
  lemma FormatExamples()
    ensures Format(Some("F"), None, 1) == "F-001" && Format(None, None, 42) == "042"
    ensures Format(Some("A"), Some("B"), 7) == "A-007-B" && Format(Some(""), Some(""), 9) == "009"
    ensures Format(None, Some("A"), 7) == "007-A" && Format(None, None, 1234) == "1234"
  {
    FewDigits();
    assert Padded(1) == "001" && Padded(7) == "007" && Padded(9) == "009" && Padded(42) == "042" && Padded(1234) == "1234";
  }

  lemma FewDigits()
    ensures Zeros(1) == "0" && Zeros(2) == "00" && Digits(1) == "1" && Digits(7) == "7" && Digits(9) == "9"
    ensures Digits(42) == "42" && Digits(1234) == "1234"
  {
    assert Zeros(0) == "" && Digits(4) == "4" && Digits(12) == "12" && Digits(123) == "123";
  }

  lemma FifteenDigits()
    ensures PowerOfTen(MAX_DIGITS) == 1_000_000_000_000_000
  {
    assert PowerOfTen(5) == 1_00000 && PowerOfTen(10) == 1_00000_00000;
  }

  function Join(segments: seq<string>): string
    requires |segments| > 0
  {
    if |segments| == 1 then segments[0] else segments[0] + "-" + Join(segments[1..])
  }

  /** The segments hold no hyphen, and with hyphens between them they are the folio. */
  lemma {:induction false} SplitJoins(s: string)
    ensures Join(Split(s)) == s && forall segment :: segment in Split(s) ==> '-' !in segment
  {
    if s != [] {
      SplitJoins(s[1..]);
      var rest := Split(s[1..]);
      assert s == [s[0]] + s[1..];
      if s[0] == '-' {
        assert Split(s)[1..] == rest;
      } else {
        JoinGrows(s[0], rest);
        assert Split(s) == [[s[0]] + rest[0]] + rest[1..];
      }
    }
  }

  lemma FourAssociative(a: string, b: string, c: string, d: string)
    ensures (a + b) + c + d == a + (b + c + d)
  {
  }

  lemma JoinGrows(c: char, segments: seq<string>)
    requires |segments| > 0
    ensures Join([[c] + segments[0]] + segments[1..]) == [c] + Join(segments)
  {
    var longer := [[c] + segments[0]] + segments[1..];
    assert longer[0] == [c] + segments[0] && longer[1..] == segments[1..];
    if |segments| > 1 { FourAssociative([c], segments[0], "-", Join(segments[1..])); }
  }

  /** `n` is the greatest of the segments of one to fifteen digits, None when there is none. */
  ghost predicate GreatestSegment(folio: string, n: Option<nat>) {
    && (forall t :: t in Split(folio) && IsNumeral(t) && 1 <= |t| <= 15 ==> n.Some? && Value(t) <= n.value)
    && (n.Some? ==> exists t :: t in Split(folio) && IsNumeral(t) && 1 <= |t| <= 15 && Value(t) == n.value)
  }

  lemma ReadsGreatestSegment(folio: string)
    ensures GreatestSegment(folio, MaxNumericSegment(folio))
  {
    var segments := Split(folio);
    forall t | t in segments && IsCandidate(t)
      ensures MaxOf(segments).Some? && Value(t) <= MaxOf(segments).value
    {
      MaxIsUpperBound(segments, t);
    }
    if MaxOf(segments).Some? { MaxIsAttained(segments); }
  }

  lemma PaddedValue(n: nat)
    ensures Value(Padded(n)) == n
  {
    ValueOfDigits(n);
    if |Digits(n)| < PAD {
      LeadingZeros(PAD - |Digits(n)|, Digits(n));
    }
  }

  lemma {:induction false} SplitConcat(a: string, b: string)
    ensures Split(a + "-" + b) == Split(a) + Split(b)
  {
    var s := a + "-" + b;
    if a == [] {
      assert s[1..] == b;
    } else {
      assert s[1..] == a[1..] + "-" + b;
      SplitConcat(a[1..], b);
    }
  }

  lemma {:induction false} SplitNumeral(s: string)
    requires IsNumeral(s)
    ensures Split(s) == [s]
  {
    if s != [] {
      SplitNumeral(s[1..]);
      assert [s[0]] + s[1..] == s;
    }
  }

  /** The number is one whole segment of its folio, whatever hyphens and digits prefix and suffix hold. */
  lemma NumberIsASegment(prefix: Option<string>, suffix: Option<string>, n: nat)
    ensures Padded(n) in Split(Format(prefix, suffix, n))
  {
    var p := Padded(n);
    SplitNumeral(p);
    if HasText(prefix) && HasText(suffix) {
      assert prefix.value + "-" + p + "-" + suffix.value == prefix.value + "-" + (p + "-" + suffix.value);
      SplitConcat(prefix.value, p + "-" + suffix.value);
      SplitConcat(p, suffix.value);
    } else if HasText(prefix) {
      SplitConcat(prefix.value, p);
    } else if HasText(suffix) {
      SplitConcat(p, suffix.value);
    }
  }

  lemma {:induction false} MaxIsUpperBound(segments: seq<string>, segment: string)
    requires segment in segments && IsCandidate(segment)
    ensures MaxOf(segments).Some? && MaxOf(segments).value >= Value(segment)
  {
    if segments[0] != segment {
      MaxIsUpperBound(segments[1..], segment);
    }
  }

  lemma {:induction false} MaxIsAttained(segments: seq<string>)
    requires MaxOf(segments).Some?
    ensures exists segment :: segment in segments && IsCandidate(segment) && Value(segment) == MaxOf(segments).value
  {
    if MaxOf(segments[1..]).Some? {
      MaxIsAttained(segments[1..]);
    }
    if IsCandidate(segments[0]) {
      assert segments[0] in segments;
    }
  }

  lemma PaddedFits(n: nat)
    ensures |Padded(n)| <= MAX_DIGITS <==> n < PowerOfTen(MAX_DIGITS)
  {
    DigitsFit(n, MAX_DIGITS);
  }

  lemma {:induction false} PowersOrdered(j: nat, k: nat)
    requires j <= k
    ensures PowerOfTen(j) <= PowerOfTen(k)
  {
    if j < k { PowersOrdered(j, k - 1); }
  }

  /** Reading a folio back never underestimates its number, exactly as long as the number has at most fifteen digits. */
  lemma NeverUnderestimatesIff(prefix: Option<string>, suffix: Option<string>, n: nat)
    ensures (MaxNumericSegment(Format(prefix, suffix, n)).Some? && MaxNumericSegment(Format(prefix, suffix, n)).value >= n)
            <==> n < 1_000_000_000_000_000
  {
    FifteenDigits();
    var segments := Split(Format(prefix, suffix, n));
    PaddedFits(n);
    if n < PowerOfTen(MAX_DIGITS) {
      NumberIsASegment(prefix, suffix, n);
      PaddedValue(n);
      MaxIsUpperBound(segments, Padded(n));
    } else if MaxOf(segments).Some? {
      MaxIsAttained(segments);
      var segment :| segment in segments && IsCandidate(segment) && Value(segment) == MaxOf(segments).value;
      ValueBelow(segment);
      PowersOrdered(|segment|, MAX_DIGITS);
    }
  }

  // ------------------------------------------------------------------------
  // The counter in the transaction
  // ------------------------------------------------------------------------

  datatype Config = Config(prefix: Option<string>, suffix: Option<string>)

  function Folio(c: Config, n: nat): string {
    Format(c.prefix, c.suffix, n)
  }

  /**
   A unique index guards a column, and up to two counters feed it: credit and debit notes
   share one.  A column with a single counter leaves the other side unused.
   */
  datatype Side = Left | Right

  /** A counter and the folios stored by its kind of document. */
  datatype Counter = Counter(number: nat, own: set<string>)

  datatype FolioColumn = FolioColumn(left: Counter, right: Counter)

  type Configs = Side -> Config

  function At(col: FolioColumn, side: Side): Counter {
    if side == Left then col.left else col.right
  }

  function With(col: FolioColumn, side: Side, counter: Counter): FolioColumn {
    if side == Left then col.(left := counter) else col.(right := counter)
  }

  /** What the unique index compares a new folio with, whatever its kind. */
  function Taken(col: FolioColumn): set<string> {
    col.left.own + col.right.own
  }

  const UNIQUE_VIOLATION := "23505"

  /** The document's callback: advance its counter, write the folio, insert the row. */
  function Issue(cfg: Configs, side: Side): Callback<FolioColumn, string> {
    (col: FolioColumn) =>
      var n := At(col, side).number + 1;
      var folio := Folio(cfg(side), n);
      if folio in Taken(col) then Failure(Object(Missing, DriverError(Text(UNIQUE_VIOLATION))))
      else Success((With(col, side, Counter(n, At(col, side).own + {folio})), folio))
  }

  /** No folio stored in the column is one this counter has yet to write. */
  ghost predicate Ahead(cfg: Configs, col: FolioColumn, side: Side) {
    forall m: nat :: At(col, side).number < m < PowerOfTen(MAX_DIGITS) ==> Folio(cfg(side), m) !in Taken(col)
  }

  function Head(prefix: Option<string>): string {
    if HasText(prefix) then prefix.value + "-" else ""
  }

  function Tail(suffix: Option<string>): string {
    if HasText(suffix) then "-" + suffix.value else ""
  }

  lemma FormatParts(prefix: Option<string>, suffix: Option<string>, n: nat)
    ensures Format(prefix, suffix, n) == Head(prefix) + Padded(n) + Tail(suffix)
  {
    var body := Head(prefix) + Padded(n);
    assert "" + Padded(n) == Padded(n);
    if HasText(suffix) { Associative(body, "-", suffix.value); } else { assert body + "" == body; }
  }

  lemma Associative(a: string, b: string, c: string)
    ensures a + b + c == a + (b + c)
  {
  }

  lemma SameMiddle(head: string, a: string, b: string, tail: string)
    requires head + a + tail == head + b + tail
    ensures a == b
  {
    assert a == (head + a + tail)[|head|..|head| + |a|];
    assert b == (head + b + tail)[|head|..|head| + |b|];
    assert |a| == |b|;
  }

  lemma FormatInjective(prefix: Option<string>, suffix: Option<string>, n: nat, m: nat)
    requires Format(prefix, suffix, n) == Format(prefix, suffix, m)
    ensures n == m
  {
    FormatParts(prefix, suffix, n);
    FormatParts(prefix, suffix, m);
    SameMiddle(Head(prefix), Padded(n), Padded(m), Tail(suffix));
    PaddedValue(n);
    PaddedValue(m);
  }

  // ------------------------------------------------------------------------
  // When two configurations never write the same folio
  // ------------------------------------------------------------------------

  ghost predicate Disjoint(c: Config, d: Config) {
    forall m: nat, n: nat :: Folio(c, m) != Folio(d, n)
  }

  /** Neither heading begins with the other. */
  predicate HeadsApart(c: Config, d: Config) {
    !(Head(c.prefix) <= Head(d.prefix)) && !(Head(d.prefix) <= Head(c.prefix))
  }

  lemma HeadsApartAreDisjoint(c: Config, d: Config)
    requires HeadsApart(c, d)
    ensures Disjoint(c, d)
  {
    forall m: nat, n: nat
      ensures Folio(c, m) != Folio(d, n)
    {
      FormatParts(c.prefix, c.suffix, m);
      FormatParts(d.prefix, d.suffix, n);
      var h, g := Head(c.prefix), Head(d.prefix);
      Associative(h, Padded(m), Tail(c.suffix));
      Associative(g, Padded(n), Tail(d.suffix));
      if Folio(c, m) == Folio(d, n) { CommonStart(h, g, Padded(m) + Tail(c.suffix), Padded(n) + Tail(d.suffix)); }
    }
  }

  lemma CommonStart(h: string, g: string, x: string, y: string)
    requires h + x == g + y
    ensures h <= g || g <= h
  {
    assert h == (h + x)[..|h|] && g == (g + y)[..|g|];
  }

  /**
   The heading of `d` is that of `c` with something added.  With nothing added both end alike;
   otherwise what is added starts with a padded number, and the ending of `c` is the rest
   of it followed by a number and the ending of `d`.
   */
  ghost predicate RunsInto(c: Config, d: Config) {
    var h, g := Head(c.prefix), Head(d.prefix);
    && h <= g
    && if g == h then Tail(c.suffix) == Tail(d.suffix)
       else exists m: nat, n: nat :: Bridges(c, d, m, n)
  }

  predicate Bridges(c: Config, d: Config, m: nat, n: nat)
    requires Head(c.prefix) <= Head(d.prefix)
  {
    var added := Head(d.prefix)[|Head(c.prefix)|..];
    Padded(m) <= added && Tail(c.suffix) == added[|Padded(m)|..] + Padded(n) + Tail(d.suffix)
  }

  lemma SplitAtNumber(p: string, x: string, q: string, y: string)
    requires IsNumeral(p) && IsNumeral(q) && p + x == q + y
    requires (x == "" || x[0] == '-') && (y == "" || y[0] == '-')
    ensures p == q && x == y
  {
    NumberPart(p, x);
    NumberPart(q, y);
    assert p == (p + x)[..|p|] && q == (q + y)[..|q|];
    assert x == (p + x)[|p|..] && y == (q + y)[|q|..];
  }

  lemma NumberPart(p: string, x: string)
    requires IsNumeral(p) && (x == "" || x[0] == '-')
    ensures forall i :: 0 <= i < |p| ==> IsDigit((p + x)[i])
    ensures |p + x| > |p| ==> (p + x)[|p|] == '-'
  {
  }

  lemma NumberIntoAdded(p: string, x: string, added: string, rest: string)
    requires IsNumeral(p) && added != "" && added[|added| - 1] == '-' && p + x == added + rest
    ensures p <= added && x == added[|p|..] + rest
  {
    var i := |added| - 1;
    assert (added + rest)[i] == '-';
    assert i < |p| ==> IsDigit((p + x)[i]);
    assert p == (p + x)[..|p|] && x == (p + x)[|p|..];
    assert (added + rest)[..|p|] == added[..|p|] && (added + rest)[|p|..] == added[|p|..] + rest;
  }

  lemma MeetMeans(c: Config, d: Config, m: nat, n: nat)
    requires Head(c.prefix) <= Head(d.prefix) && Folio(c, m) == Folio(d, n)
    ensures RunsInto(c, d)
  {
    FormatParts(c.prefix, c.suffix, m);
    FormatParts(d.prefix, d.suffix, n);
    var h, g := Head(c.prefix), Head(d.prefix);
    var added := g[|h|..];
    assert g == h + added;
    SameStart(h, Padded(m), Tail(c.suffix), added, Padded(n), Tail(d.suffix));
    if g == h {
      assert added + Padded(n) == Padded(n);
      SplitAtNumber(Padded(m), Tail(c.suffix), Padded(n), Tail(d.suffix));
    } else {
      Associative(added, Padded(n), Tail(d.suffix));
      NumberIntoAdded(Padded(m), Tail(c.suffix), added, Padded(n) + Tail(d.suffix));
      Associative(added[|Padded(m)|..], Padded(n), Tail(d.suffix));
      assert Bridges(c, d, m, n);
    }
  }

  lemma SameStart(h: string, p: string, x: string, added: string, q: string, y: string)
    requires h + p + x == h + added + q + y
    ensures p + x == added + q + y
  {
    assert p + x == (h + p + x)[|h|..];
    assert added + q + y == (h + added + q + y)[|h|..];
  }

  lemma BridgeMeets(c: Config, d: Config, m: nat, n: nat)
    requires Head(c.prefix) <= Head(d.prefix) && Bridges(c, d, m, n)
    ensures Folio(c, m) == Folio(d, n)
  {
    FormatParts(c.prefix, c.suffix, m);
    FormatParts(d.prefix, d.suffix, n);
    Reassemble(Head(c.prefix), Padded(m), Tail(c.suffix), Head(d.prefix), Padded(n), Tail(d.suffix));
  }

  lemma Reassemble(h: string, p: string, x: string, g: string, q: string, y: string)
    requires h <= g && p <= g[|h|..] && x == g[|h|..][|p|..] + q + y
    ensures h + p + x == g + q + y
  {
    var rest := g[|h|..][|p|..];
    assert g == h + (p + rest);
    FiveAssociative(h, p, rest, q, y);
  }

  lemma FiveAssociative(h: string, p: string, t: string, q: string, y: string)
    ensures h + p + (t + q + y) == h + (p + t) + q + y
  {
  }

  lemma RunsIntoMeets(c: Config, d: Config)
    requires RunsInto(c, d)
    ensures !Disjoint(c, d) && !Disjoint(d, c)
  {
    if Head(c.prefix) == Head(d.prefix) {
      FormatParts(c.prefix, c.suffix, 0);
      FormatParts(d.prefix, d.suffix, 0);
      assert Folio(c, 0) == Folio(d, 0);
    } else {
      var m: nat, n: nat :| Bridges(c, d, m, n);
      BridgeMeets(c, d, m, n);
    }
  }

  /** Two configurations never write the same folio exactly when neither runs into the other. */
  lemma DisjointIff(c: Config, d: Config)
    ensures Disjoint(c, d) <==> !RunsInto(c, d) && !RunsInto(d, c)
  {
    if RunsInto(c, d) { RunsIntoMeets(c, d); }
    if RunsInto(d, c) { RunsIntoMeets(d, c); }
    if !RunsInto(c, d) && !RunsInto(d, c) {
      forall m: nat, n: nat
        ensures Folio(c, m) != Folio(d, n)
      {
        if Folio(c, m) == Folio(d, n) { MeetEitherWay(c, d, m, n); }
      }
    }
  }

  lemma MeetEitherWay(c: Config, d: Config, m: nat, n: nat)
    requires Folio(c, m) == Folio(d, n)
    ensures RunsInto(c, d) || RunsInto(d, c)
  {
    var h, g := Head(c.prefix), Head(d.prefix);
    FormatParts(c.prefix, c.suffix, m);
    FormatParts(d.prefix, d.suffix, n);
    Associative(h, Padded(m), Tail(c.suffix));
    Associative(g, Padded(n), Tail(d.suffix));
    CommonStart(h, g, Padded(m) + Tail(c.suffix), Padded(n) + Tail(d.suffix));
    if h <= g { MeetMeans(c, d, m, n); } else { MeetMeans(d, c, n, m); }
  }

  /** Without suffixes that is when their prefixes differ, an empty one counting as none. */
  lemma PrefixesTellIff(c: Config, d: Config)
    requires !HasText(c.suffix) && !HasText(d.suffix)
    ensures Disjoint(c, d) <==> Head(c.prefix) != Head(d.prefix)
  {
    DisjointIff(c, d);
  }

  /** With suffixes different prefixes are not enough: both of these write NC-001-001. */
  lemma SuffixMeetsPrefix()
    ensures var c, d := Config(Some("NC"), Some("001")), Config(Some("NC-001"), None);
            Folio(c, 1) == Folio(d, 1) == "NC-001-001" && !Disjoint(c, d)
  {
    var c, d := Config(Some("NC"), Some("001")), Config(Some("NC-001"), None);
    PaddedOne();
    assert Folio(c, 1) == "NC-001-001" && Folio(d, 1) == "NC-001-001";
  }

  lemma PaddedOne()
    ensures Padded(1) == "001"
  {
    assert Digits(1) == "1" && Zeros(2) == "00" by { assert Zeros(1) == "0" && Zeros(0) == ""; }
  }

  // ------------------------------------------------------------------------
  // Issuing
  // ------------------------------------------------------------------------

  /** The column after the next folio of that kind is stored. */
  function Issued(cfg: Configs, col: FolioColumn, side: Side): FolioColumn {
    var n := At(col, side).number + 1;
    With(col, side, Counter(n, At(col, side).own + {Folio(cfg(side), n)}))
  }

  lemma TakenAfter(cfg: Configs, col: FolioColumn, side: Side)
    ensures Taken(Issued(cfg, col, side)) == Taken(col) + {Folio(cfg(side), At(col, side).number + 1)}
  {
  }

  /** A counter that is ahead stays so when it issues its next folio. */
  lemma StaysAhead(cfg: Configs, col: FolioColumn, side: Side)
    requires Ahead(cfg, col, side)
    ensures Ahead(cfg, Issued(cfg, col, side), side)
  {
    TakenAfter(cfg, col, side);
    var n := At(col, side).number + 1;
    forall m: nat | n < m < PowerOfTen(MAX_DIGITS)
      ensures Folio(cfg(side), m) !in Taken(Issued(cfg, col, side))
    {
      if Folio(cfg(side), m) == Folio(cfg(side), n) { FormatInjective(cfg(side).prefix, cfg(side).suffix, m, n); }
    }
  }

  /** So does one whose configuration never meets that of the counter that issues. */
  lemma SiblingStaysAhead(cfg: Configs, col: FolioColumn, side: Side, other: Side)
    requires other != side && Ahead(cfg, col, other) && Disjoint(cfg(side), cfg(other))
    ensures Ahead(cfg, Issued(cfg, col, side), other)
  {
    TakenAfter(cfg, col, side);
  }

  /** While a counter is ahead it issues a folio that was not in the column. */
  lemma AheadIssues(cfg: Configs, col: FolioColumn, side: Side)
    requires Ahead(cfg, col, side) && At(col, side).number + 1 < PowerOfTen(MAX_DIGITS)
    ensures var folio := Folio(cfg(side), At(col, side).number + 1);
            folio !in Taken(col) && Issue(cfg, side)(col) == Success((Issued(cfg, col, side), folio))
    ensures Ahead(cfg, Issued(cfg, col, side), side)
  {
    StaysAhead(cfg, col, side);
  }

  /** With the next folio taken, the transaction fails with an error that is not tried again. */
  lemma TakenBlocks(cfg: Configs, side: Side, col: FolioColumn)
    ensures Folio(cfg(side), At(col, side).number + 1) in Taken(col) <==> Issue(cfg, side)(col).Failure?
    ensures Issue(cfg, side)(col).Failure? ==>
              && Issue(cfg, side)(col).error == Object(Missing, DriverError(Text("23505")))
              && forall attempt: nat, maxRetries: nat :: !Retries(Issue(cfg, side)(col).error, attempt, maxRetries)
  {
    assert "23505"[0] != "40001"[0];
  }

  /** Caller `i` issues a folio of the kind `sides[i]`. */
  ghost predicate AllIssue(callers: seq<Caller<FolioColumn, string>>, cfg: Configs, sides: seq<Side>) {
    |sides| == |callers| && forall i :: 0 <= i < |callers| ==> callers[i].callback == Issue(cfg, sides[i])
  }

  /** The counters in use are ahead and, if both are, never write the same folio. */
  ghost predicate Ready(cfg: Configs, col: FolioColumn, sides: seq<Side>) {
    && (forall side :: side in sides ==> Ahead(cfg, col, side))
    && (Left in sides && Right in sides ==> Disjoint(cfg(Left), cfg(Right)) && Disjoint(cfg(Right), cfg(Left)))
  }

  /** How many commits of the log were of that kind. */
  function Count(sides: seq<Side>, log: seq<nat>, side: Side): (n: nat)
    ensures n <= |log|
  {
    if log == [] then 0
    else
      var who := log[|log| - 1];
      Count(sides, log[..|log| - 1], side) + (if who < |sides| && sides[who] == side then 1 else 0)
  }

  /** The folios with the numbers after `a`, up to `b`. */
  function Between(c: Config, a: nat, b: nat): set<string> {
    set k: nat | a < k <= b :: Folio(c, k)
  }

  lemma BetweenGrows(c: Config, a: nat, b: nat)
    requires a <= b
    ensures Between(c, a, b + 1) == Between(c, a, b) + {Folio(c, b + 1)}
  {
  }

  /** One counter after the commits of the log: it has moved once per commit of its kind and stored just the folios in between. */
  ghost predicate Moved(c: Config, start: Counter, end: Counter, commits: nat) {
    end.number == start.number + commits && end.own == start.own + Between(c, start.number, end.number)
  }

  /** The column after the commits of the log, one folio each. */
  function IssuedAll(cfg: Configs, sides: seq<Side>, start: FolioColumn, log: seq<nat>): FolioColumn
    requires forall i :: 0 <= i < |log| ==> log[i] < |sides|
  {
    if log == [] then start else Issued(cfg, IssuedAll(cfg, sides, start, log[..|log| - 1]), sides[log[|log| - 1]])
  }

  lemma OneMoreMoved(cfg: Configs, start: Counter, col: FolioColumn, issuing: Side, side: Side, commits: nat)
    requires Moved(cfg(side), start, At(col, side), commits)
    ensures Moved(cfg(side), start, At(Issued(cfg, col, issuing), side), commits + if issuing == side then 1 else 0)
  {
    if issuing == side { BetweenGrows(cfg(side), start.number, At(col, side).number); }
  }

  lemma {:induction false} IssuedAllMoved(cfg: Configs, sides: seq<Side>, start: FolioColumn, log: seq<nat>, side: Side)
    requires forall i :: 0 <= i < |log| ==> log[i] < |sides|
    ensures Moved(cfg(side), At(start, side), At(IssuedAll(cfg, sides, start, log), side), Count(sides, log, side))
  {
    if log != [] {
      var before := log[..|log| - 1];
      IssuedAllMoved(cfg, sides, start, before, side);
      OneMoreMoved(cfg, At(start, side), IssuedAll(cfg, sides, start, before), sides[log[|log| - 1]], side, Count(sides, before, side));
    }
  }

  /** Both counters can move that often within fifteen digits. */
  predicate HasRoom(col: FolioColumn, n: nat) {
    col.left.number + n < PowerOfTen(MAX_DIGITS) && col.right.number + n < PowerOfTen(MAX_DIGITS)
  }

  lemma StaysReady(cfg: Configs, sides: seq<Side>, col: FolioColumn, side: Side)
    requires Ready(cfg, col, sides) && side in sides
    ensures Ready(cfg, Issued(cfg, col, side), sides)
  {
    forall other | other in sides
      ensures Ahead(cfg, Issued(cfg, col, side), other)
    {
      if other == side { StaysAhead(cfg, col, side); } else { SiblingStaysAhead(cfg, col, side, other); }
    }
  }

  lemma {:induction false} IssuedAllReady(cfg: Configs, sides: seq<Side>, start: FolioColumn, log: seq<nat>)
    requires Ready(cfg, start, sides) && forall i :: 0 <= i < |log| ==> log[i] < |sides|
    ensures Ready(cfg, IssuedAll(cfg, sides, start, log), sides)
  {
    if log != [] {
      IssuedAllReady(cfg, sides, start, log[..|log| - 1]);
      StaysReady(cfg, sides, IssuedAll(cfg, sides, start, log[..|log| - 1]), sides[log[|log| - 1]]);
    }
  }

  lemma NextNumber(cfg: Configs, sides: seq<Side>, start: FolioColumn, log: seq<nat>, side: Side)
    requires HasRoom(start, |log| + 1)
    requires forall i :: 0 <= i < |log| ==> log[i] < |sides|
    ensures At(IssuedAll(cfg, sides, start, log), side).number == At(start, side).number + Count(sides, log, side)
    ensures At(IssuedAll(cfg, sides, start, log), side).number + 1 < PowerOfTen(MAX_DIGITS)
  {
    IssuedAllMoved(cfg, sides, start, log, side);
  }

  /** The next document of a kind in use gets the next folio of its counter. */
  lemma ReadyIssues(cfg: Configs, sides: seq<Side>, col: FolioColumn, side: Side, n: nat)
    requires Ready(cfg, col, sides) && side in sides && At(col, side).number + 1 == n < PowerOfTen(MAX_DIGITS)
    ensures Issue(cfg, side)(col) == Success((Issued(cfg, col, side), Folio(cfg(side), n)))
  {
    AheadIssues(cfg, col, side);
  }

  lemma {:induction false} ReplayIsIssued(callers: seq<Caller<FolioColumn, string>>, cfg: Configs, sides: seq<Side>, start: FolioColumn, log: seq<nat>)
    requires AllIssue(callers, cfg, sides) && Ready(cfg, start, sides) && HasRoom(start, |log|)
    requires forall i :: 0 <= i < |log| ==> log[i] < |sides|
    ensures Replay(callers, start, log) == Some(IssuedAll(cfg, sides, start, log))
    decreases |log|
  {
    if log != [] {
      var before, who := log[..|log| - 1], log[|log| - 1];
      ReplayIsIssued(callers, cfg, sides, start, before);
      var col := IssuedAll(cfg, sides, start, before);
      IssuedAllReady(cfg, sides, start, before);
      NextNumber(cfg, sides, start, before, sides[who]);
      ReadyIssues(cfg, sides, col, sides[who], At(col, sides[who]).number + 1);
    }
  }

  /**
   Replaying a log from a column whose counters are ready moves each counter once per
   commit of its kind and stores just the folios in between.
   */
  lemma {:induction false} ReplayIssues(callers: seq<Caller<FolioColumn, string>>, cfg: Configs, sides: seq<Side>, start: FolioColumn, log: seq<nat>)
    requires AllIssue(callers, cfg, sides) && Ready(cfg, start, sides) && HasRoom(start, |log|)
    requires forall i :: 0 <= i < |log| ==> log[i] < |sides|
    ensures Replay(callers, start, log).Some? && Ready(cfg, Replay(callers, start, log).value, sides)
    ensures forall side :: Moved(cfg(side), At(start, side), At(Replay(callers, start, log).value, side), Count(sides, log, side))
  {
    ReplayIsIssued(callers, cfg, sides, start, log);
    IssuedAllReady(cfg, sides, start, log);
    forall side
      ensures Moved(cfg(side), At(start, side), At(IssuedAll(cfg, sides, start, log), side), Count(sides, log, side))
    {
      IssuedAllMoved(cfg, sides, start, log, side);
    }
  }

  lemma {:induction false} FolioReturned(cfg: Configs, sides: seq<Side>, start: FolioColumn, s: System<FolioColumn, string>, j: nat, col: FolioColumn, n: nat)
    requires j < |s.log| && s.log[j] < |s.callers| == |sides| && ReturnedInTurn(start, s, j)
    requires s.callers[s.log[j]].callback == Issue(cfg, sides[s.log[j]])
    requires Replay(s.callers, start, s.log[..j]) == Some(col) && Ready(cfg, col, sides)
    requires At(col, sides[s.log[j]]).number + 1 == n < PowerOfTen(MAX_DIGITS)
    ensures s.callers[s.log[j]].result == Some(Success(Folio(cfg(sides[s.log[j]]), n)))
  {
    ReadyIssues(cfg, sides, col, sides[s.log[j]], n);
  }

  lemma {:induction false} ReplayReady(callers: seq<Caller<FolioColumn, string>>, cfg: Configs, sides: seq<Side>, start: FolioColumn, log: seq<nat>, side: Side)
    requires AllIssue(callers, cfg, sides) && Ready(cfg, start, sides) && HasRoom(start, |log| + 1)
    requires forall i :: 0 <= i < |log| ==> log[i] < |sides|
    ensures var col := IssuedAll(cfg, sides, start, log);
            && Replay(callers, start, log) == Some(col) && Ready(cfg, col, sides)
            && At(col, side).number == At(start, side).number + Count(sides, log, side)
            && At(col, side).number + 1 < PowerOfTen(MAX_DIGITS)
  {
    ReplayIsIssued(callers, cfg, sides, start, log);
    IssuedAllReady(cfg, sides, start, log);
    NextNumber(cfg, sides, start, log, side);
  }

  lemma {:induction false} FolioOfTurn(cfg: Configs, sides: seq<Side>, start: FolioColumn, s: System<FolioColumn, string>, j: nat, side: Side, n: nat)
    requires AllIssue(s.callers, cfg, sides) && Ready(cfg, start, sides)
    requires j < |s.log| && HasRoom(start, j + 1)
    requires forall i :: 0 <= i < |s.log| ==> s.log[i] < |s.callers|
    requires ReturnedInTurn(start, s, j)
    requires side == sides[s.log[j]] && n == At(start, side).number + Count(sides, s.log[..j], side) + 1
    ensures s.callers[s.log[j]].result == Some(Success(Folio(cfg(side), n)))
  {
    ReplayReady(s.callers, cfg, sides, start, s.log[..j], side);
    FolioReturned(cfg, sides, start, s, j, IssuedAll(cfg, sides, start, s.log[..j]), n);
  }

  lemma FolioIsNew(cfg: Configs, sides: seq<Side>, start: FolioColumn, side: Side, n: nat)
    requires Ready(cfg, start, sides) && side in sides && At(start, side).number < n < PowerOfTen(MAX_DIGITS)
    ensures Folio(cfg(side), n) !in Taken(start)
  {
    assert Ahead(cfg, start, side);
  }

  lemma {:induction false} FreshFolioOfTurn(cfg: Configs, sides: seq<Side>, start: FolioColumn, s: System<FolioColumn, string>, j: nat)
    requires AllIssue(s.callers, cfg, sides) && Ready(cfg, start, sides)
    requires j < |s.log| && HasRoom(start, j + 1)
    requires forall i :: 0 <= i < |s.log| ==> s.log[i] < |s.callers|
    requires ReturnedInTurn(start, s, j)
    ensures var side := sides[s.log[j]];
            var folio := Folio(cfg(side), At(start, side).number + Count(sides, s.log[..j], side) + 1);
            s.callers[s.log[j]].result == Some(Success(folio)) && folio !in Taken(start)
  {
    var side := sides[s.log[j]];
    var n := At(start, side).number + Count(sides, s.log[..j], side) + 1;
    FolioOfTurn(cfg, sides, start, s, j, side, n);
    FolioIsNew(cfg, sides, start, side, n);
  }

  /**
   Any number of concurrent documents of both kinds, interleaved and retried in any way,
   get folios with the consecutive numbers after the counter of their kind, in the order
   they commit; all are new to the column, and at the end it has gained these and no others.
   */
  lemma {:induction false} ConcurrentFoliosAreFresh(callers: seq<Caller<FolioColumn, string>>, cfg: Configs, sides: seq<Side>,
                                                    start: FolioColumn, turns: seq<Turn>, s: System<FolioColumn, string>, j: nat)
    requires Fresh(callers) && AllIssue(callers, cfg, sides) && Ready(cfg, start, sides)
    requires HasRoom(start, |callers|)
    requires TakeAll(System(start, callers, []), turns) == Some(s) && j < |s.log|
    ensures s.log[j] < |s.callers| == |sides|
    ensures var side := sides[s.log[j]];
            var folio := Folio(cfg(side), At(start, side).number + Count(sides, s.log[..j], side) + 1);
            s.callers[s.log[j]].result == Some(Success(folio)) && folio !in Taken(start)
    ensures forall side :: Moved(cfg(side), At(start, side), At(s.state, side), Count(sides, s.log, side))
  {
    RunIssues(callers, cfg, sides, start, turns, s);
    assert ReturnedInTurn(start, s, j);
    FreshFolioOfTurn(cfg, sides, start, s, j);
    ReplayIssues(s.callers, cfg, sides, start, s.log);
  }

  lemma {:induction false} RunIssues(callers: seq<Caller<FolioColumn, string>>, cfg: Configs, sides: seq<Side>, start: FolioColumn, turns: seq<Turn>,
                                    s: System<FolioColumn, string>)
    requires Fresh(callers) && AllIssue(callers, cfg, sides) && TakeAll(System(start, callers, []), turns) == Some(s)
    ensures Serial(start, s) && AllIssue(s.callers, cfg, sides) && |s.log| <= |s.callers| == |callers|
  {
    RunKeepsSerial(start, System(start, callers, []), turns);
    LogFits(start, s);
  }

  lemma LogFits(start: FolioColumn, s: System<FolioColumn, string>)
    requires Serial(start, s)
    ensures |s.log| <= |s.callers|
  {
    DistinctBelow(s.log, |s.callers|);
  }

  lemma {:induction false} DistinctBelow(log: seq<nat>, n: nat)
    requires forall j :: 0 <= j < |log| ==> log[j] < n
    requires forall i, j :: 0 <= i < j < |log| ==> log[i] != log[j]
    ensures |log| <= n
    decreases n
  {
    if log != [] {
      var first := log[0];
      assert first < n;
      if i :| 0 <= i < |log| && log[i] == n - 1 {
        DistinctBelow(log[..i] + log[i + 1..], n - 1);
      } else {
        DistinctBelow(log, n - 1);
      }
    }
  }

  /** The other transactions leave this column alone. */
  ghost predicate Undisturbed(world: World<FolioColumn>, col: FolioColumn) {
    forall k: nat :: world(k).others(col) == col
  }

  lemma {:induction false} UndisturbedStays(world: World<FolioColumn>, col: FolioColumn, k: nat)
    requires Undisturbed(world, col)
    ensures StateAt(world, col, k) == col
  {
    if k > 0 {
      UndisturbedStays(world, col, k - 1);
    }
  }

  /**
   A document whose next folio is taken stays blocked: whatever the engine does, every call
   fails and the rollback leaves the column as it was, so the next call is blocked too.
   Unless the engine aborts it first, the call gives up after one attempt.
   */
  method BlockedSale(store: Store<FolioColumn>, cfg: Configs, side: Side, options: Options, world: World<FolioColumn>)
    returns (r: Result<string, Thrown>, attempts: nat)
    requires Folio(cfg(side), At(store.state, side).number + 1) in Taken(store.state)
    requires Undisturbed(world, store.state)
    modifies store
    ensures r.Failure? && store.state == old(store.state)
    ensures world(0).abort.None? ==> attempts == 1 && r.error == Object(Missing, DriverError(Text("23505")))
  {
    ghost var col := store.state;
    TakenBlocks(cfg, side, col);
    forall k: nat ensures StateAt(world, col, k) == col {
      UndisturbedStays(world, col, k);
    }
    assert Issue(cfg, side)(col).Failure?;
    assert !Retries(Issue(cfg, side)(col).error, 0, 1);
    assert world(0).abort.None? ==> !FailedForNow(world, Issue(cfg, side), col, 0);
    var waited;
    r, attempts, waited := RunSerializableWithRetry(store, Issue(cfg, side), options, world);
  }

  // ------------------------------------------------------------------------
  // Resynchronisation
  // ------------------------------------------------------------------------

  /** The column of one company. */
  datatype ColumnKey = ColumnKey(company: nat, column: nat)

  /** `n` is the greatest number read from the folios. */
  ghost predicate IsMax(folios: set<string>, n: Option<nat>) {
    && (forall f :: f in folios && MaxNumericSegment(f).Some? ==> n.Some? && MaxNumericSegment(f).value <= n.value)
    && (n.Some? ==> exists f :: f in folios && MaxNumericSegment(f) == n)
  }

  /** A counter is raised to the greatest number read from the folios of its own kind, and never lowered. */
  ghost predicate Raised(before: Counter, after: Counter) {
    && after.own == before.own
    && exists n: Option<nat> :: IsMax(before.own, n) &&
         after.number == if n.Some? && n.value > before.number then n.value else before.number
  }

  ghost predicate BothRaised(before: FolioColumn, after: FolioColumn) {
    Raised(before.left, after.left) && Raised(before.right, after.right)
  }

  class TicketSettings {
    var columns: map<ColumnKey, FolioColumn>

    constructor (columns: map<ColumnKey, FolioColumn>)
      ensures this.columns == columns
    {
      this.columns := columns;
    }

    method GreatestNumber(folios: set<string>) returns (n: Option<nat>)
      ensures IsMax(folios, n)
    {
      n := None;
      var left := folios;
      while left != {}
        invariant left <= folios
        invariant IsMax(folios - left, n)
      {
        var f :| f in left;
        var read := MaxNumericSegment(f);
        left := left - {f};
        assert folios - left == folios - (left + {f}) + {f};
        n := Greater(n, read);
      }
      assert folios - left == folios;
    }

    method Raise(counter: Counter) returns (after: Counter)
      ensures Raised(counter, after)
    {
      var n := GreatestNumber(counter.own);
      after := if n.Some? && n.value > counter.number then counter.(number := n.value) else counter;
    }

    method Resync()
      modifies this
      ensures columns.Keys == old(columns).Keys
      ensures forall k :: k in columns ==> BothRaised(old(columns)[k], columns[k])
    {
      var todo := columns.Keys;
      while todo != {}
        invariant todo <= columns.Keys && columns.Keys == old(columns).Keys
        invariant forall k :: k in todo ==> columns[k] == old(columns)[k]
        invariant forall k :: k in columns && k !in todo ==> BothRaised(old(columns)[k], columns[k])
      {
        var k :| k in todo;
        var left := Raise(columns[k].left);
        var right := Raise(columns[k].right);
        columns := columns[k := FolioColumn(left, right)];
        todo := todo - {k};
      }
    }
  }

  /** A folio of the other kind is one this counter has yet to write. */
  ghost predicate SiblingInTheWay(cfg: Configs, col: FolioColumn, side: Side) {
    exists m: nat :: At(col, side).number < m < PowerOfTen(MAX_DIGITS) && Folio(cfg(side), m) in Taken(col) - At(col, side).own
  }

  lemma RaisedCoversItsOwn(c: Config, before: Counter, after: Counter, m: nat)
    requires Raised(before, after) && after.number < m < PowerOfTen(MAX_DIGITS)
    ensures after.number >= before.number && Folio(c, m) !in after.own
  {
    FifteenDigits();
    NeverUnderestimatesIff(c.prefix, c.suffix, m);
  }

  /**
   After a resynchronisation a counter is ahead, under whatever prefix and suffix it is
   given, exactly when no folio of the other kind in its column is one it has yet to write.
   */
  lemma RaisedIsAheadIff(cfg: Configs, before: FolioColumn, after: FolioColumn, side: Side)
    requires BothRaised(before, after)
    ensures Ahead(cfg, after, side) <==> !SiblingInTheWay(cfg, after, side)
  {
    forall m: nat | At(after, side).number < m < PowerOfTen(MAX_DIGITS)
      ensures Folio(cfg(side), m) !in At(after, side).own
    {
      RaisedCoversItsOwn(cfg(side), At(before, side), At(after, side), m);
    }
  }

  function OtherSide(side: Side): Side {
    if side == Left then Right else Left
  }

  /** In particular where the column has one counter, as all but that of the notes do... */
  lemma RaisedAloneIsAhead(cfg: Configs, before: FolioColumn, after: FolioColumn, side: Side)
    requires BothRaised(before, after) && At(after, OtherSide(side)).own == {}
    ensures Ahead(cfg, after, side)
  {
    RaisedIsAheadIff(cfg, before, after, side);
  }

  /** ...and where the other kind's folios were written by a configuration that never meets this one. */
  lemma RaisedApartIsAhead(cfg: Configs, before: FolioColumn, after: FolioColumn, side: Side)
    requires BothRaised(before, after) && Disjoint(cfg(side), cfg(OtherSide(side)))
    requires forall f :: f in At(after, OtherSide(side)).own ==> exists m: nat :: f == Folio(cfg(OtherSide(side)), m)
    ensures Ahead(cfg, after, side)
  {
    RaisedIsAheadIff(cfg, before, after, side);
    forall m: nat
      ensures Folio(cfg(side), m) !in At(after, OtherSide(side)).own
    {
    }
  }

  /** Two kinds of notes without prefix or suffix, which the settings accept. */
  function Plain(): Configs {
    side => Config(None, None)
  }

  /**
   With five credit notes and a debit counter at 2 no resynchronisation moves the debit
   counter, and the next debit note is refused.
   */
  lemma PlainNotesStayBlocked()
    ensures var col := FolioColumn(Counter(5, Between(Config(None, None), 0, 5)), Counter(2, {}));
            && (forall after :: BothRaised(col, after) ==> after == col)
            && Issue(Plain(), Right)(col).Failure?
            && SiblingInTheWay(Plain(), col, Right)
  {
    var plain := Config(None, None);
    var col := FolioColumn(Counter(5, Between(plain, 0, 5)), Counter(2, {}));
    assert Folio(plain, 3) in Taken(col);
    forall f | f in col.left.own && MaxNumericSegment(f).Some?
      ensures MaxNumericSegment(f).value <= 5
    {
      var k: nat :| 0 < k <= 5 && f == Folio(plain, k);
      PlainReadsBack(k);
    }
    PowersOrdered(1, MAX_DIGITS);
    assert 3 < PowerOfTen(MAX_DIGITS);
  }

  /** Credit notes NC-n-001 and debit notes NC-001-n. */
  function Crossed(): Configs {
    side => if side == Left then Config(Some("NC"), Some("001")) else Config(Some("NC-001"), None)
  }

  /** So do these, which differ in their prefixes: no resynchronisation lets the first debit note through. */
  lemma CrossedNotesStayBlocked()
    ensures var col := FolioColumn(Counter(1, {Folio(Crossed()(Left), 1)}), Counter(0, {}));
            && (forall after :: BothRaised(col, after) ==> after.right == col.right && after.left.own == col.left.own)
            && (forall after :: BothRaised(col, after) ==> Issue(Crossed(), Right)(after).Failure?)
            && SiblingInTheWay(Crossed(), col, Right)
  {
    var col := FolioColumn(Counter(1, {Folio(Crossed()(Left), 1)}), Counter(0, {}));
    SuffixMeetsPrefix();
    assert Folio(Crossed()(Right), 1) in Taken(col);
    PowersOrdered(1, MAX_DIGITS);
    assert 1 < PowerOfTen(MAX_DIGITS);
  }

  lemma PlainReadsBack(k: nat)
    ensures MaxNumericSegment(Folio(Config(None, None), k)).Some? ==> MaxNumericSegment(Folio(Config(None, None), k)).value == k
  {
    var p := Padded(k);
    SplitNumeral(p);
    PaddedValue(k);
    assert MaxNumericSegment(p) == MaxOf([p]);
    assert MaxOf([p]) == Greater(if IsCandidate(p) then Some(k) else None, MaxOf([p][1..]));
  }

  /** A second resynchronisation changes nothing, nor does one where the counter already covers every folio of its kind. */
  lemma RaisedOnce(before: Counter, after: Counter, again: Counter)
    requires Raised(before, after) && Raised(after, again)
    ensures again == after
    ensures (forall f :: f in before.own && MaxNumericSegment(f).Some? ==> MaxNumericSegment(f).value <= before.number)
            ==> after == before
  {
  }
}
