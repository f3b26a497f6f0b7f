/** The creation time printed into the container record, and the listing sorted by it
    (src/state.rs, `now_rfc3339` and `list`). */
module Timestamps {
  import opened Wrappers
  import opened Text
  import opened Calendar

  /** Time since the Unix epoch. */
  datatype Instant = Instant(secs: nat, nanos: nat)

  predicate WellFormed(t: Instant) {
    t.nanos < 1_000_000_000
  }

  predicate Earlier(a: Instant, b: Instant) {
    a.secs < b.secs || (a.secs == b.secs && a.nanos < b.nanos)
  }

  /** 1 January of the year 10000, the first instant outside the grammar of RFC 3339. */
  const YEAR_10000: nat := 253_402_300_800

  function Separated(sep: char, rest: string): string {
    [sep] + rest
  }

  function FirstSecond(year: int): int {
    (MarchDays(year - 1) + 306 - 719_468) * SECONDS_PER_DAY
  }

  /** The year is at least `year` exactly from the first second of that year on. */
  lemma YearReached(secs: int, year: int)
    ensures CivilFromUnix(secs).year >= year <==> secs >= FirstSecond(year)
  {
    CivilInvertsDayCount(secs);
    DaysToYearClosed(year);
    UnixOrdersDates(CivilFromUnix(secs), Civil(year, 1, 1, 0, 0, 0));
  }

  lemma FirstSeconds()
    ensures FirstSecond(1970) == 0 && FirstSecond(10_000) == YEAR_10000
    ensures FirstSecond(9_000) < YEAR_10000 - 1 && FirstSecond(10_001) > YEAR_10000
  {
  }

  lemma YearBetween(secs: int, low: int, high: int)
    requires FirstSecond(low) <= secs < FirstSecond(high)
    ensures low <= CivilFromUnix(secs).year < high
  {
    YearReached(secs, low);
    YearReached(secs, high);
  }

  lemma NonNegativeYear(secs: nat)
    ensures CivilFromUnix(secs).year >= 1970
    ensures secs < YEAR_10000 <==> CivilFromUnix(secs).year <= 9999
  {
    YearReached(secs, 1970);
    YearReached(secs, 10_000);
    FirstSeconds();
  }

  /** `YYYY-MM-DDThh:mm:ss.nnnnnnnnnZ`, with a year of at least four digits. */
  function Stamp(t: Instant): string {
    NonNegativeYear(t.secs);
    CivilInvertsDayCount(t.secs);
    var c := CivilFromUnix(t.secs);
    Pad(c.year, 4) + Separated('-', Pad(c.month, 2) + Separated('-', Pad(c.day, 2)
      + Separated('T', Pad(c.hour, 2) + Separated(':', Pad(c.minute, 2)
      + Separated(':', Pad(c.second, 2) + Separated('.', Pad(t.nanos, 9) + "Z"))))))
  }

  lemma SeparatedOrder(sep: char, a: string, b: string)
    ensures Less(Separated(sep, a), Separated(sep, b)) <==> Less(a, b)
  {
    LessConcat([sep], a, [sep], b);
    assert !Less([sep], [sep]) by { LessTotal([sep], [sep]); }
  }

  /** Up to the end of the year 9999 the byte order of two stamps is the order of their instants. */
  lemma StampOrder(a: Instant, b: Instant)
    requires WellFormed(a) && WellFormed(b)
    requires a.secs < YEAR_10000 && b.secs < YEAR_10000
    ensures Less(Stamp(a), Stamp(b)) <==> Earlier(a, b)
    ensures Stamp(a) == Stamp(b) <==> a == b
  {
    StampOrderOneWay(a, b);
    StampOrderOneWay(b, a);
    LessTotal(Stamp(a), Stamp(b));
  }

  lemma PowersOfTen()
    ensures Pow10(2) == 100 && Pow10(4) == 10_000 && Pow10(9) == 1_000_000_000
  {
    assert Pow10(3) == 1_000;
    assert Pow10(5) == 100_000;
    assert Pow10(7) == 10_000_000;
  }

  lemma StampOrderOneWay(a: Instant, b: Instant)
    requires WellFormed(a) && WellFormed(b)
    requires a.secs < YEAR_10000 && b.secs < YEAR_10000
    ensures Less(Stamp(a), Stamp(b)) <==> Earlier(a, b)
  {
    var c, d := CivilFromUnix(a.secs), CivilFromUnix(b.secs);
    NonNegativeYear(a.secs);
    NonNegativeYear(b.secs);
    CivilInvertsDayCount(a.secs);
    CivilInvertsDayCount(b.secs);
    CivilOrder(a.secs, b.secs);
    CivilOrder(b.secs, a.secs);
    PowersOfTen();

    var a6, b6 := Pad(a.nanos, 9) + "Z", Pad(b.nanos, 9) + "Z";
    PaddedFieldOrder(a.nanos, "Z", b.nanos, "Z", 9);
    var a5, b5 := Pad(c.second, 2) + Separated('.', a6), Pad(d.second, 2) + Separated('.', b6);
    NextField(c.second, '.', a6, d.second, b6, 2);
    var a4, b4 := Pad(c.minute, 2) + Separated(':', a5), Pad(d.minute, 2) + Separated(':', b5);
    NextField(c.minute, ':', a5, d.minute, b5, 2);
    var a3, b3 := Pad(c.hour, 2) + Separated(':', a4), Pad(d.hour, 2) + Separated(':', b4);
    NextField(c.hour, ':', a4, d.hour, b4, 2);
    var a2, b2 := Pad(c.day, 2) + Separated('T', a3), Pad(d.day, 2) + Separated('T', b3);
    NextField(c.day, 'T', a3, d.day, b3, 2);
    var a1, b1 := Pad(c.month, 2) + Separated('-', a2), Pad(d.month, 2) + Separated('-', b2);
    NextField(c.month, '-', a2, d.month, b2, 2);
    NextField(c.year, '-', a1, d.year, b1, 4);
    assert Stamp(a) == Pad(c.year, 4) + Separated('-', a1);
    assert Stamp(b) == Pad(d.year, 4) + Separated('-', b1);
    assert Less("Z", "Z") == false by { LessTotal("Z", "Z"); }
  }

  lemma NextField(a: nat, sep: char, restA: string, b: nat, restB: string, width: nat)
    requires 0 < width && a < Pow10(width) && b < Pow10(width)
    ensures Less(Pad(a, width) + Separated(sep, restA), Pad(b, width) + Separated(sep, restB))
            <==> a < b || (a == b && Less(restA, restB))
  {
    PaddedFieldOrder(a, Separated(sep, restA), b, Separated(sep, restB), width);
    SeparatedOrder(sep, restA, restB);
  }

  lemma YearsAroundTheLimit()
    ensures 9_000 <= CivilFromUnix(YEAR_10000 - 1).year <= 9_999
    ensures CivilFromUnix(YEAR_10000).year == 10_000
  {
    FirstSeconds();
    YearBetween(YEAR_10000 - 1, 9_000, 10_000);
    YearBetween(YEAR_10000, 10_000, 10_001);
  }

  lemma LeadingDigits(year: nat)
    requires 9_000 <= year <= 9_999
    ensures |Decimal(year)| == 4 && Decimal(year)[0] == '9'
    ensures |Decimal(10_000)| == 5 && Decimal(10_000)[0] == '1'
  {
    assert Decimal(year / 1_000) == "9";
    assert |Decimal(year / 100)| == 2 && Decimal(year / 100)[0] == '9';
    assert |Decimal(year / 10)| == 3 && Decimal(year / 10)[0] == '9';
    assert Decimal(10) == "10";
    assert Decimal(100) == "100";
    assert Decimal(1_000) == "1000";
  }

  /** One second past the range of `StampOrder` the order is lost: the year gets a fifth digit, and
      its leading 1 sorts before the 9 of the year that just ended. */
  lemma FiveDigitYearSortsFirst()
    ensures var last, next := Instant(YEAR_10000 - 1, 0), Instant(YEAR_10000, 0);
            Earlier(last, next) && Less(Stamp(next), Stamp(last))
  {
    YearsAroundTheLimit();
    LeadingDigits(CivilFromUnix(YEAR_10000 - 1).year);
    StampStartsWithYear(Instant(YEAR_10000 - 1, 0));
    StampStartsWithYear(Instant(YEAR_10000, 0));
  }

  /** Byte order is time order for all stamps of instants before `bound`. */
  ghost predicate OrderKeptBefore(bound: nat) {
    forall a, b :: WellFormed(a) && WellFormed(b) && a.secs < bound && b.secs < bound ==>
                     (Less(Stamp(a), Stamp(b)) <==> Earlier(a, b))
  }

  /** The year 10000 is the exact limit. */
  lemma OrderKeptExactly(bound: nat)
    ensures OrderKeptBefore(bound) <==> bound <= YEAR_10000
  {
    if bound <= YEAR_10000 {
      forall a, b | WellFormed(a) && WellFormed(b) && a.secs < bound && b.secs < bound
        ensures Less(Stamp(a), Stamp(b)) <==> Earlier(a, b)
      {
        StampOrder(a, b);
      }
    } else {
      var last, next := Instant(YEAR_10000 - 1, 0), Instant(YEAR_10000, 0);
      FiveDigitYearSortsFirst();
      MisorderedPair(last, next);
      assert WellFormed(last) && WellFormed(next);
    }
  }

  lemma MisorderedPair(a: Instant, b: Instant)
    requires Earlier(a, b) && Less(Stamp(b), Stamp(a))
    ensures !Earlier(b, a)
  {
  }

  lemma StampStartsWithYear(t: Instant)
    ensures CivilFromUnix(t.secs).year >= 1970
    ensures Stamp(t)[..|Pad(CivilFromUnix(t.secs).year, 4)|] == Pad(CivilFromUnix(t.secs).year, 4)
    ensures |Stamp(t)| > |Pad(CivilFromUnix(t.secs).year, 4)| > 0
  {
    NonNegativeYear(t.secs);
    CivilInvertsDayCount(t.secs);
  }

  // ----- reading a stamp back

  /** A field of digits up to a separator, and what follows. */
  function ReadField(text: string, width: nat, sep: char): Option<(nat, string)> {
    if |text| <= width || text[width] != sep then None
    else
      match ParseDigits(text[..width])
      case None => None
      case Some(n) => Some((n, text[width + 1..]))
  }

  function ReadFields(text: string, layout: seq<(nat, char)>): Option<seq<nat>> {
    if layout == [] then (if text == "" then Some([]) else None)
    else
      match ReadField(text, layout[0].0, layout[0].1)
      case None => None
      case Some((n, rest)) =>
        match ReadFields(rest, layout[1..])
        case None => None
        case Some(more) => Some([n] + more)
  }

  /** The layout of RFC 3339, section 5.6, in UTC and with nine digits for the fraction of a second. */
  const TIME_LAYOUT: seq<(nat, char)> := [(2, ':')] + ([(2, ':')] + ([(2, '.')] + ([(9, 'Z')] + [])))
  const LAYOUT: seq<(nat, char)> := [(4, '-')] + ([(2, '-')] + ([(2, 'T')] + TIME_LAYOUT))

  /** A text of so many digits that reads as this number. */
  predicate IsField(text: string, n: nat, width: nat) {
    |text| == width && ParseDigits(text) == Some(n)
  }

  lemma PadIsField(n: nat, width: nat)
    requires 0 < width && n < Pow10(width)
    ensures IsField(Pad(n, width), n, width)
  {
    PadFixed(n, width);
    ParseFixed(n, width);
  }

  lemma ReadOneMore(text: string, n: nat, width: nat, sep: char, rest: string,
                    layout: seq<(nat, char)>, more: seq<nat>)
    requires IsField(text, n, width) && ReadFields(rest, layout) == Some(more)
    ensures ReadFields(text + Separated(sep, rest), [(width, sep)] + layout) == Some([n] + more)
  {
    var line := text + Separated(sep, rest);
    assert line[..width] == text && line[width + 1..] == rest;
    assert ([(width, sep)] + layout)[1..] == layout;
  }

  lemma TimeReadsBack(h: string, hour: nat, m: string, minute: nat, s: string, second: nat, f: string, nanos: nat)
    requires IsField(h, hour, 2) && IsField(m, minute, 2) && IsField(s, second, 2) && IsField(f, nanos, 9)
    ensures ReadFields(h + Separated(':', m + Separated(':', s + Separated('.', f + "Z"))), TIME_LAYOUT)
            == Some([hour, minute, second, nanos])
  {
    assert Separated('Z', "") == "Z";
    ReadOneMore(f, nanos, 9, 'Z', "", [], []);
    var a, b := f + "Z", s + Separated('.', f + "Z");
    ReadOneMore(s, second, 2, '.', a, [(9, 'Z')] + [], [nanos] + []);
    ReadOneMore(m, minute, 2, ':', b, [(2, '.')] + ([(9, 'Z')] + []), [second] + ([nanos] + []));
    ReadOneMore(h, hour, 2, ':', m + Separated(':', b), [(2, ':')] + ([(2, '.')] + ([(9, 'Z')] + [])),
                [minute] + ([second] + ([nanos] + [])));
    assert [hour] + ([minute] + ([second] + ([nanos] + []))) == [hour, minute, second, nanos];
  }

  lemma DateReadsBack(y: string, year: nat, m: string, month: nat, d: string, day: nat, time: string, read: seq<nat>)
    requires IsField(y, year, 4) && IsField(m, month, 2) && IsField(d, day, 2)
    requires ReadFields(time, TIME_LAYOUT) == Some(read)
    ensures ReadFields(y + Separated('-', m + Separated('-', d + Separated('T', time))), LAYOUT)
            == Some([year, month, day] + read)
  {
    ReadOneMore(d, day, 2, 'T', time, TIME_LAYOUT, read);
    var a := d + Separated('T', time);
    ReadOneMore(m, month, 2, '-', a, [(2, 'T')] + TIME_LAYOUT, [day] + read);
    ReadOneMore(y, year, 4, '-', m + Separated('-', a), [(2, '-')] + ([(2, 'T')] + TIME_LAYOUT),
                [month] + ([day] + read));
    assert [year] + ([month] + ([day] + read)) == [year, month, day] + read;
  }

  lemma FieldsOfStamp(t: Instant)
    requires WellFormed(t) && t.secs < YEAR_10000
    ensures var c := CivilFromUnix(t.secs);
            && c.year >= 0 && c.month >= 0 && c.day >= 0 && c.hour >= 0 && c.minute >= 0 && c.second >= 0
            && IsField(Pad(c.year, 4), c.year, 4) && IsField(Pad(c.month, 2), c.month, 2)
            && IsField(Pad(c.day, 2), c.day, 2) && IsField(Pad(c.hour, 2), c.hour, 2)
            && IsField(Pad(c.minute, 2), c.minute, 2) && IsField(Pad(c.second, 2), c.second, 2)
            && IsField(Pad(t.nanos, 9), t.nanos, 9)
  {
    NonNegativeYear(t.secs);
    CivilInvertsDayCount(t.secs);
    PowersOfTen();
    var c := CivilFromUnix(t.secs);
    PadIsField(c.year, 4);
    PadIsField(c.month, 2);
    PadIsField(c.day, 2);
    PadIsField(c.hour, 2);
    PadIsField(c.minute, 2);
    PadIsField(c.second, 2);
    PadIsField(t.nanos, 9);
  }

  /** Up to the end of the year 9999 a stamp is its instant's date, time and nanoseconds in that layout, and
      they are read back from it. */
  lemma StampReadsBack(t: Instant)
    requires WellFormed(t) && t.secs < YEAR_10000
    ensures var c := CivilFromUnix(t.secs);
            ReadFields(Stamp(t), LAYOUT)
            == Some([c.year, c.month, c.day] + [c.hour, c.minute, c.second, t.nanos])
  {
    FieldsOfStamp(t);
    var c := CivilFromUnix(t.secs);
    var h, m, s, f := Pad(c.hour, 2), Pad(c.minute, 2), Pad(c.second, 2), Pad(t.nanos, 9);
    TimeReadsBack(h, c.hour, m, c.minute, s, c.second, f, t.nanos);
    DateReadsBack(Pad(c.year, 4), c.year, Pad(c.month, 2), c.month, Pad(c.day, 2), c.day,
                  h + Separated(':', m + Separated(':', s + Separated('.', f + "Z"))),
                  [c.hour, c.minute, c.second, t.nanos]);
  }

  // ----- the listing

  datatype Container = Container(id: string, created: string)

  ghost predicate SortedByCreated(list: seq<Container>) {
    forall i, j :: 0 <= i < j < |list| ==> !Less(list[j].created, list[i].created)
  }

  /** Insertion after every container that is not later: the stable order of `sort_by`. */
  function InsertByCreated(list: seq<Container>, c: Container): (sorted: seq<Container>)
    ensures multiset(sorted) == multiset(list) + multiset{c}
  {
    if list == [] || !Less(c.created, list[|list| - 1].created) then list + [c]
    else
      assert list == list[..|list| - 1] + [list[|list| - 1]];
      InsertByCreated(list[..|list| - 1], c) + [list[|list| - 1]]
  }

  function SortByCreated(list: seq<Container>): (sorted: seq<Container>)
    ensures multiset(sorted) == multiset(list)
  {
    if list == [] then []
    else
      assert list == list[..|list| - 1] + [list[|list| - 1]];
      InsertByCreated(SortByCreated(list[..|list| - 1]), list[|list| - 1])
  }

  lemma InsertedOrThere(list: seq<Container>, c: Container, i: nat)
    requires i < |InsertByCreated(list, c)|
    ensures InsertByCreated(list, c)[i] == c || InsertByCreated(list, c)[i] in list
  {
    assert InsertByCreated(list, c)[i] in multiset(InsertByCreated(list, c));
  }

  lemma {:induction false} InsertKeepsOrder(list: seq<Container>, c: Container)
    requires SortedByCreated(list)
    ensures SortedByCreated(InsertByCreated(list, c))
  {
    var sorted := InsertByCreated(list, c);
    if list != [] {
      var n := |list| - 1;
      if Less(c.created, list[n].created) {
        InsertKeepsOrder(list[..n], c);
        var front := InsertByCreated(list[..n], c);
        LessTotal(c.created, list[n].created);
        forall i | 0 <= i < |front| ensures !Less(list[n].created, front[i].created) {
          InsertedOrThere(list[..n], c, i);
        }
      } else {
        forall i | 0 <= i < |list| ensures !Less(c.created, list[i].created) {
          if i < n { LessTransitive(list[i].created, list[n].created, c.created); }
        }
      }
    }
  }

  /** The containers with one stamp, in their order. */
  function WithStamp(list: seq<Container>, stamp: string): seq<Container> {
    if list == [] then []
    else
      var front := WithStamp(list[..|list| - 1], stamp);
      if list[|list| - 1].created == stamp then front + [list[|list| - 1]] else front
  }

  lemma WithStampSnoc(list: seq<Container>, c: Container, stamp: string)
    ensures WithStamp(list + [c], stamp) == WithStamp(list, stamp) + if c.created == stamp then [c] else []
  {
    assert (list + [c])[..|list|] == list;
  }

  lemma {:induction false} InsertIsStable(list: seq<Container>, c: Container, stamp: string)
    ensures WithStamp(InsertByCreated(list, c), stamp) == WithStamp(list + [c], stamp)
  {
    if list != [] && Less(c.created, list[|list| - 1].created) {
      var front, last := list[..|list| - 1], list[|list| - 1];
      InsertIsStable(front, c, stamp);
      WithStampSnoc(InsertByCreated(front, c), last, stamp);
      WithStampSnoc(front, c, stamp);
      WithStampSnoc(list, c, stamp);
      LessTotal(c.created, last.created);
    }
  }

  /** Containers with one stamp keep the order they were found in. */
  lemma {:induction false} SortIsStable(list: seq<Container>, stamp: string)
    ensures WithStamp(SortByCreated(list), stamp) == WithStamp(list, stamp)
  {
    if list != [] {
      var front, last := list[..|list| - 1], list[|list| - 1];
      SortIsStable(front, stamp);
      InsertIsStable(SortByCreated(front), last, stamp);
      WithStampSnoc(SortByCreated(front), last, stamp);
    }
  }

  lemma {:induction false} SortIsSorted(list: seq<Container>)
    ensures SortedByCreated(SortByCreated(list))
  {
    if list != [] {
      SortIsSorted(list[..|list| - 1]);
      InsertKeepsOrder(SortByCreated(list[..|list| - 1]), list[|list| - 1]);
    }
  }

  /** An entry of the runtime's directory: what the directory gives may be broken; a name that is not
      text is passed over, and so is one whose record does not load. */
  datatype Entry = Broken | NotText | Named(record: Option<Container>)

  datatype Directory = Missing | Unreadable | Entries(entries: seq<Entry>)

  /** The entries whose record could be loaded, in directory order. */
  function Loaded(entries: seq<Entry>): (found: seq<Container>) {
    if entries == [] then []
    else
      var front := Loaded(entries[..|entries| - 1]);
      match entries[|entries| - 1]
      case Named(Some(c)) => front + [c]
      case _ => front
  }

  lemma {:induction false} LoadedInOrder(a: seq<Entry>, b: seq<Entry>)
    ensures Loaded(a + b) == Loaded(a) + Loaded(b)
    decreases |b|
  {
    if b == [] {
      assert a + b == a;
    } else {
      var front := b[..|b| - 1];
      assert (a + b)[..|a + b| - 1] == a + front;
      LoadedInOrder(a, front);
    }
  }

  /** One entry gives its container if its record loads, and otherwise nothing. */
  lemma LoadedOne(c: Container)
    ensures Loaded([Named(Some(c))]) == [c] && Loaded([Named(None)]) == Loaded([NotText]) == []
  {
    assert [Named(Some(c))][..0] == [] && [Named(None)][..0] == [] && [NotText][..0] == [];
  }

  /** So every container comes up as often as it is in the directory. */
  lemma {:induction false} LoadedExactly(entries: seq<Entry>, c: Container)
    ensures multiset(Loaded(entries))[c] == multiset(entries)[Named(Some(c))]
  {
    if entries != [] {
      var front, last := entries[..|entries| - 1], entries[|entries| - 1];
      LoadedExactly(front, c);
      OneMoreEntry(front, last, Named(Some(c)));
      assert entries == front + [last];
      if last.Named? && last.record.Some? {
        OneMoreContainer(Loaded(front), last.record.value, c);
      }
    }
  }

  lemma OneMoreEntry(front: seq<Entry>, last: Entry, e: Entry)
    ensures multiset(front + [last])[e] == multiset(front)[e] + if last == e then 1 else 0
  {
  }

  lemma OneMoreContainer(front: seq<Container>, last: Container, c: Container)
    ensures multiset(front + [last])[c] == multiset(front)[c] + if last == c then 1 else 0
  {
  }

  /** The listing fails exactly for a directory or an entry that cannot be read. Otherwise every container
      that could be loaded is listed once, none other is, in order of its stamp, and those with one stamp
      in the order of the directory. */
  method List(root: Directory) returns (r: Result<seq<Container>, nat>)
    ensures r.Err? <==> root.Unreadable? || (root.Entries? && Broken in root.entries)
    ensures r.Err? && root.Entries? ==>
              r.error < |root.entries| && root.entries[r.error].Broken? && Broken !in root.entries[..r.error]
    ensures root.Missing? ==> r == Ok([])
    ensures r.Ok? ==> SortedByCreated(r.value)
    ensures r.Ok? && root.Entries? ==> multiset(r.value) == multiset(Loaded(root.entries))
    ensures r.Ok? && root.Entries? ==>
              forall stamp :: WithStamp(r.value, stamp) == WithStamp(Loaded(root.entries), stamp)
  {
    if root.Missing? {
      return Ok([]);
    }
    if root.Unreadable? {
      return Err(0);
    }
    var entries := root.entries;
    var found: seq<Container> := [];
    for i := 0 to |entries|
      invariant found == Loaded(entries[..i]) && Broken !in entries[..i]
    {
      assert entries[..i + 1][..i] == entries[..i];
      match entries[i]
      case Broken => return Err(i);
      case Named(Some(c)) => found := found + [c];
      case _ =>
    }
    assert entries[..|entries|] == entries;
    SortIsSorted(found);
    forall stamp ensures WithStamp(SortByCreated(found), stamp) == WithStamp(found, stamp) {
      SortIsStable(found, stamp);
    }
    r := Ok(SortByCreated(found));
  }

  /** When every record was stamped by `now_rfc3339` before the year 10000, a listing in stamp
      order is a listing in order of creation. */
  lemma ListingIsChronological(found: seq<Container>, times: seq<Instant>)
    requires |times| == |found| && SortedByCreated(found)
    requires forall i :: 0 <= i < |times| ==>
               WellFormed(times[i]) && times[i].secs < YEAR_10000 && found[i].created == Stamp(times[i])
    ensures forall i, j :: 0 <= i < j < |times| ==> !Earlier(times[j], times[i])
  {
    forall i, j | 0 <= i < j < |times| ensures !Earlier(times[j], times[i]) {
      StampOrder(times[j], times[i]);
    }
  }
}
