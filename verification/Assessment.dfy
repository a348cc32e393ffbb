/** Decimal numbers as the kernel prints them and the assessment reads them. */
module Decimal {

  predicate IsDigit(c: char) { '0' <= c <= '9' }

  predicate AllDigits(s: string) {
    forall i :: 0 <= i < |s| ==> IsDigit(s[i])
  }

  function Digit(d: nat): (c: char)
    requires d < 10
    ensures IsDigit(c) && (c as int) - ('0' as int) == d
  {
    ('0' as int + d) as char
  }

  /** `%d` of a number that is not negative. */
  function Print(n: nat): (s: string)
    ensures s != [] && AllDigits(s)
  {
    if n < 10 then [Digit(n)] else Print(n / 10) + [Digit(n % 10)]
  }

  /** The value of a string of digits. */
  function Number(s: string): nat
    requires AllDigits(s)
  {
    if s == [] then 0 else 10 * Number(s[..|s| - 1]) + (s[|s| - 1] as int - '0' as int)
  }

  lemma {:induction false} NumberUndoesPrint(n: nat)
    ensures Number(Print(n)) == n
  {
    if n >= 10 {
      NumberUndoesPrint(n / 10);
      var s := Print(n);
      assert s[..|s| - 1] == Print(n / 10);
    }
  }

  /** The length of the run of digits, or of other characters, from `i` on. */
  function Run(s: string, i: nat, digits: bool): (j: nat)
    requires i <= |s|
    ensures i <= j <= |s|
    ensures forall k :: i <= k < j ==> IsDigit(s[k]) == digits
    ensures j < |s| ==> IsDigit(s[j]) != digits
    decreases |s| - i
  {
    if i == |s| || IsDigit(s[i]) != digits then i else Run(s, i + 1, digits)
  }

  lemma {:induction false} RunIs(s: string, i: nat, j: nat, digits: bool)
    requires i <= j <= |s| && (forall k :: i <= k < j ==> IsDigit(s[k]) == digits)
    requires j < |s| ==> IsDigit(s[j]) != digits
    ensures Run(s, i, digits) == j
    decreases j - i
  {
    if i < j {
      RunIs(s, i + 1, j, digits);
    }
  }

  /** Three numbers. */
  datatype Triple = Triple(low: nat, middle: nat, high: nat)

  /** Where the second and the third number of a printed triple start. */
  function Second(s: string): nat {
    Run(s, Run(s, 0, true), false)
  }

  function Third(s: string): nat {
    Run(s, Run(s, Second(s), true), false)
  }

  /** Three runs of digits; with fewer, the program reads past the end of its buffer. */
  predicate IsTriple(s: string) {
    Run(s, 0, true) > 0 && Second(s) < |s| && Third(s) < |s|
  }

  function NumberAt(s: string, i: nat): nat
    requires i <= |s|
  {
    Number(s[i..Run(s, i, true)])
  }

  function ParseTriple(s: string): Triple
    requires IsTriple(s)
  {
    Triple(NumberAt(s, 0), NumberAt(s, Second(s)), NumberAt(s, Third(s)))
  }

  /** A triple as the kernel displays it. */
  function PrintTriple(t: Triple): string {
    Print(t.low) + "\t" + Print(t.middle) + "\t" + Print(t.high)
  }

  /** A run of digits between two positions that do not continue it. */
  lemma DigitsBetween(s: string, i: nat, d: string)
    requires d != [] && AllDigits(d) && i + |d| <= |s| && s[i..i + |d|] == d
    requires i + |d| < |s| ==> s[i + |d|] == '\t'
    ensures Run(s, i, true) == i + |d| && IsDigit(s[i])
  {
    assert forall k :: i <= k < i + |d| ==> s[k] == s[i..i + |d|][k - i];
    RunIs(s, i, i + |d|, true);
  }

  lemma TabBetween(s: string, i: nat)
    requires i + 1 < |s| && s[i] == '\t' && IsDigit(s[i + 1])
    ensures Run(s, i, false) == i + 1
  {
    RunIs(s, i, i + 1, false);
  }

  /** `s` is `a`, `b` and `c` with a tab between each two. */
  predicate Tabbed(s: string, a: string, b: string, c: string) {
    var i, j := |a| + 1, |a| + |b| + 2;
    && |s| == j + |c|
    && s[0..|a|] == a && s[|a|] == '\t' && s[i..i + |b|] == b && s[i + |b|] == '\t' && s[j..j + |c|] == c
  }

  lemma JoinIsTabbed(a: string, b: string, c: string)
    ensures Tabbed(a + "\t" + b + "\t" + c, a, b, c)
  {
  }

  lemma SplitTabbed(s: string, a: string, b: string, c: string)
    requires a != [] && b != [] && c != [] && AllDigits(a) && AllDigits(b) && AllDigits(c) && Tabbed(s, a, b, c)
    ensures IsTriple(s)
    ensures s[0..Run(s, 0, true)] == a
    ensures s[Second(s)..Run(s, Second(s), true)] == b
    ensures s[Third(s)..Run(s, Third(s), true)] == c
  {
    hide Run, IsDigit, AllDigits;
    DigitsBetween(s, 0, a);
    DigitsBetween(s, |a| + 1, b);
    DigitsBetween(s, |a| + |b| + 2, c);
    TabBetween(s, |a|);
    TabBetween(s, |a| + 1 + |b|);
  }

  /** The parser undoes the printer. */
  lemma ParseUndoesPrint(t: Triple)
    ensures IsTriple(PrintTriple(t)) && ParseTriple(PrintTriple(t)) == t
  {
    hide Print, Number, Run, Second, Third, IsTriple;
    JoinIsTabbed(Print(t.low), Print(t.middle), Print(t.high));
    hide Tabbed;
    SplitTabbed(PrintTriple(t), Print(t.low), Print(t.middle), Print(t.high));
    NumberUndoesPrint(t.low);
    NumberUndoesPrint(t.middle);
    NumberUndoesPrint(t.high);
  }

  /** The three digit loops of the assessment. */
  method ScanTriple(s: string) returns (low: string, middle: string, high: string)
    requires IsTriple(s)
    ensures AllDigits(low) && AllDigits(middle) && AllDigits(high)
    ensures Triple(Number(low), Number(middle), Number(high)) == ParseTriple(s)
  {
    var i := 0;
    i, low := ScanDigits(s, i);
    i := SkipOthers(s, i);
    i, middle := ScanDigits(s, i);
    i := SkipOthers(s, i);
    i, high := ScanDigits(s, i);
  }

  method ScanDigits(s: string, start: nat) returns (i: nat, digits: string)
    requires start <= |s|
    ensures i == Run(s, start, true) && digits == s[start..i]
  {
    i, digits := start, [];
    while i < |s| && IsDigit(s[i])
      invariant start <= i <= |s| && digits == s[start..i] && Run(s, start, true) == Run(s, i, true)
    {
      digits := digits + [s[i]];
      i := i + 1;
    }
  }

  method SkipOthers(s: string, start: nat) returns (i: nat)
    requires start <= |s|
    ensures i == Run(s, start, false)
  {
    i := start;
    while i < |s| && !IsDigit(s[i])
      invariant start <= i <= |s| && Run(s, start, false) == Run(s, i, false)
    {
      i := i + 1;
    }
  }
}

/** The assessment pass over the kernel settings, in its two versions: the stand-alone
    program and the module, which gates three-valued settings differently. */
module Assessment {
  import opened Decimal

  datatype Version = Standalone | TuningModule

  /** What a table asks of a setting: a minimum, three values, a word (tried out with `modprobe`
      first where `probed`), or nothing but a look at the list of what is available. */
  datatype Entry = Single(minimum: nat) | Three(wanted: Triple) | Word(word: string, probed: bool) | Listing

  datatype Setting = Setting(name: string, entry: Entry)

  const HUGE := 1147483647

  const COMMON: seq<Setting> := [
    Setting("net.core.rmem_max", Single(HUGE)),
    Setting("net.core.wmem_max", Single(HUGE)),
    Setting("net.ipv4.tcp_mtu_probing", Single(1)),
    Setting("net.ipv4.tcp_available_congestion_control", Listing),
    Setting("net.ipv4.tcp_congestion_control", Word("htcp", true)),
    Setting("net.core.default_qdisc", Word("fq", false)),
    Setting("net.ipv4.tcp_rmem", Three(Triple(4096, 87380, HUGE))),
    Setting("net.ipv4.tcp_wmem", Three(Triple(4096, 65536, HUGE)))]

  const UNUSED := Setting("MTU", Three(Triple(0, 84, 0)))

  /** The table for a speed in Mb/s; the two below 100 Gb/s have the same contents. */
  function TableFor(speed: int): seq<Setting> {
    if speed < 100000 then COMMON + [UNUSED]
    else
      COMMON
      + [Setting("net.core.netdev_max_backlog", Single(250000)),
         Setting("net.ipv4.tcp_no_metrics_save", Single(1)),
         UNUSED]
  }

  predicate GoodTable(table: seq<Setting>) {
    forall i :: 0 <= i < |table| && table[i].entry.Word? ==>
      table[i].entry.word != "" && !IsDigit(table[i].entry.word[0])
  }

  lemma TablesAreGood(speed: int)
    ensures GoodTable(TableFor(speed))
  {
  }

  /** The first entry with this name, or the size of the table. */
  function Find(table: seq<Setting>, name: string): (i: nat)
    ensures i <= |table| && (i < |table| ==> table[i].name == name)
    ensures forall j :: 0 <= j < i ==> table[j].name != name
    decreases |table|
  {
    if table == [] then 0 else if table[0].name == name then 0 else 1 + Find(table[1..], name)
  }

  /** A line of the settings file: `name = value`. */
  datatype Line = Line(name: string, value: string)

  /** The form of value that the program reads safely for an entry. */
  predicate Fits(e: Entry, value: string) {
    && value != ""
    && match e
       case Single(_) => IsDigit(value[0])
       case Three(_) => IsTriple(value)
       case Word(_, _) => !IsDigit(value[0])
       case Listing => !IsDigit(value[0])
  }

  predicate AllFit(table: seq<Setting>, lines: seq<Line>) {
    forall i :: 0 <= i < |lines| ==>
      var k := Find(table, lines[i].name);
      k < |table| ==> Fits(table[k].entry, lines[i].value)
  }

  /** What is done about one line. */
  datatype Change = Keep | SetNumber(n: nat) | SetTriple(t: Triple) | SetWord(w: string)

  /** `available` says that htcp has been listed, `probe` that `modprobe` would find it. */
  function Decide(v: Version, e: Entry, value: string, available: bool, probe: bool): Change
    requires Fits(e, value)
  {
    match e
    case Single(minimum) =>
      if NumberAt(value, 0) < minimum then SetNumber(minimum) else Keep
    case Three(wanted) =>
      var t := ParseTriple(value);
      if wanted.high > t.high && (v.Standalone? || t.low <= wanted.low) then SetTriple(wanted) else Keep
    case Word(word, probed) =>
      if value == word || (probed && !available && !probe) then Keep else SetWord(word)
    case Listing => Keep
  }

  /** What the kernel displays afterwards. */
  function Shown(c: Change, value: string): string {
    match c
    case Keep => value
    case SetNumber(n) => Print(n)
    case SetTriple(t) => PrintTriple(t)
    case SetWord(w) => w
  }

  predicate Contains(s: string, part: string) {
    exists i :: 0 <= i <= |s| && part <= s[i..]
  }

  function EntryOf(table: seq<Setting>, name: string): Entry
    requires Find(table, name) < |table|
  {
    table[Find(table, name)].entry
  }

  predicate Known(table: seq<Setting>, name: string) {
    Find(table, name) < |table|
  }

  predicate ListsHtcp(table: seq<Setting>, l: Line) {
    Known(table, l.name) && EntryOf(table, l.name).Listing? && Contains(l.value, "htcp")
  }

  /** Whether the lines so far have listed htcp as available. */
  predicate Available(table: seq<Setting>, lines: seq<Line>) {
    lines != [] && (Available(table, lines[..|lines| - 1]) || ListsHtcp(table, lines[|lines| - 1]))
  }

  lemma AvailablePlus(table: seq<Setting>, lines: seq<Line>, l: Line)
    ensures Available(table, lines + [l]) <==> Available(table, lines) || ListsHtcp(table, l)
  {
    assert (lines + [l])[..|lines|] == lines;
    hide ListsHtcp;
  }

  lemma ContainsMeans(s: string, part: string)
    ensures Contains(s, part) <==> exists before, after :: s == before + part + after
  {
    if i :| 0 <= i <= |s| && part <= s[i..] {
      assert s == s[..i] + part + s[i + |part|..];
    }
    if before, after :| s == before + part + after {
      assert part <= s[|before|..];
    }
  }

  /** That is so exactly if some line is the listing and has the word in its value. */
  lemma {:induction false} AvailableMeans(table: seq<Setting>, lines: seq<Line>)
    ensures Available(table, lines) <==>
            exists i :: 0 <= i < |lines| && Find(table, lines[i].name) < |table|
                        && table[Find(table, lines[i].name)].entry.Listing?
                        && exists before, after :: lines[i].value == before + "htcp" + after
  {
    if lines != [] {
      AvailableMeans(table, lines[..|lines| - 1]);
      ContainsMeans(lines[|lines| - 1].value, "htcp");
    }
    hide Contains, Find;
  }

  /** The change for line `i` of a file. */
  function ChangeAt(v: Version, table: seq<Setting>, probe: bool, lines: seq<Line>, i: nat): Change
    requires AllFit(table, lines) && i < |lines|
  {
    var l := lines[i];
    if Known(table, l.name) then Decide(v, EntryOf(table, l.name), l.value, Available(table, lines[..i]), probe)
    else Keep
  }

  /** The file as printed again after all changes have been made. */
  function Reprinted(v: Version, table: seq<Setting>, probe: bool, lines: seq<Line>): (r: seq<Line>)
    requires AllFit(table, lines)
    ensures |r| == |lines|
    ensures forall i :: 0 <= i < |lines| ==>
              r[i] == Line(lines[i].name, Shown(ChangeAt(v, table, probe, lines, i), lines[i].value))
  {
    seq(|lines|, i requires 0 <= i < |lines| =>
          Line(lines[i].name, Shown(ChangeAt(v, table, probe, lines, i), lines[i].value)))
  }

  lemma PrintedNumber(n: nat)
    ensures Print(n) != "" && IsDigit(Print(n)[0]) && NumberAt(Print(n), 0) == n
  {
    var s := Print(n);
    RunIs(s, 0, |s|, true);
    assert s[0..|s|] == s;
    NumberUndoesPrint(n);
  }

  /** A value just set fits its entry again, and is not changed a second time. */
  lemma DecideTwice(v: Version, e: Entry, value: string, available: bool, probe: bool)
    requires Fits(e, value) && (e.Word? ==> e.word != "" && !IsDigit(e.word[0]))
    ensures var shown := Shown(Decide(v, e, value, available, probe), value);
            Fits(e, shown) && Decide(v, e, shown, available, probe) == Keep
  {
    match e
    case Single(minimum) => PrintedNumber(minimum);
    case Three(wanted) => ParseUndoesPrint(wanted);
    case Word(_, _) =>
    case Listing =>
  }

  lemma ListingStays(v: Version, table: seq<Setting>, probe: bool, lines: seq<Line>, i: nat)
    requires AllFit(table, lines) && i < |lines|
    ensures var r := Reprinted(v, table, probe, lines);
            ListsHtcp(table, r[i]) == ListsHtcp(table, lines[i])
  {
  }

  lemma {:induction false} SameAvailability(v: Version, table: seq<Setting>, probe: bool, lines: seq<Line>, i: nat)
    requires AllFit(table, lines) && i <= |lines|
    ensures Available(table, Reprinted(v, table, probe, lines)[..i]) == Available(table, lines[..i])
  {
    hide Available, ListsHtcp, Find, AllFit, Shown, Decide, ChangeAt;
    if i == 0 {
      NothingListed(table);
    } else {
      var r := Reprinted(v, table, probe, lines);
      SameAvailability(v, table, probe, lines, i - 1);
      ListingStays(v, table, probe, lines, i - 1);
      AvailablePlus(table, r[..i - 1], r[i - 1]);
      AvailablePlus(table, lines[..i - 1], lines[i - 1]);
      assert r[..i] == r[..i - 1] + [r[i - 1]] && lines[..i] == lines[..i - 1] + [lines[i - 1]];
    }
  }

  lemma NothingListed(table: seq<Setting>)
    ensures !Available(table, [])
  {
  }

  /** The assessment reaches a fixpoint at once: a second pass over the settings as printed after the first, with
      the same outcome of the module probe, changes nothing. This holds for both versions and every speed. */
  lemma SecondPassIsQuiet(v: Version, speed: int, probe: bool, lines: seq<Line>)
    requires AllFit(TableFor(speed), lines)
    ensures var table := TableFor(speed);
            var again := Reprinted(v, table, probe, lines);
            && AllFit(table, again)
            && (forall i :: 0 <= i < |again| ==> ChangeAt(v, table, probe, again, i) == Keep)
            && Reprinted(v, table, probe, again) == again
  {
    var table := TableFor(speed);
    var again := Reprinted(v, table, probe, lines);
    TablesAreGood(speed);
    hide TableFor, Decide, Fits, Find, Available, Shown;
    forall i | 0 <= i < |lines|
      ensures var k := Find(table, again[i].name);
              k < |table| ==>
                && Fits(table[k].entry, again[i].value)
                && Decide(v, table[k].entry, again[i].value, Available(table, again[..i]), probe) == Keep
    {
      SameAvailability(v, table, probe, lines, i);
      if Known(table, lines[i].name) {
        DecideTwice(v, EntryOf(table, lines[i].name), lines[i].value, Available(table, lines[..i]), probe);
      }
    }
    KeepShows();
  }

  lemma KeepShows()
    ensures forall value :: Shown(Keep, value) == value
  {
  }

  /** What a setting shows afterwards. A single value is raised to the minimum, and never lowered. A triple is left
      alone if its third value suffices or it is gated, and otherwise becomes the wanted one, so that its
      third value is never lowered either. A word becomes the wanted one exactly if it can be had. */
  lemma NeverLowered(v: Version, e: Entry, value: string, available: bool, probe: bool)
    requires Fits(e, value)
    ensures var shown := Shown(Decide(v, e, value, available, probe), value);
            match e
            case Single(minimum) =>
              && (NumberAt(value, 0) >= minimum ==> shown == value)
              && (NumberAt(value, 0) < minimum ==> Fits(e, shown) && NumberAt(shown, 0) == minimum)
            case Three(wanted) =>
              var t := ParseTriple(value);
              && Fits(e, shown) && t.high <= ParseTriple(shown).high
              && (if t.high >= wanted.high || (v.TuningModule? && GatedValue(wanted, t)) then shown == value
                  else ParseTriple(shown) == wanted)
            case Word(word, probed) => shown == if !probed || available || probe then word else value
            case Listing => shown == value
  {
    hide Print, Number, Run, PrintTriple;
    match e
    case Single(minimum) => PrintedNumber(minimum);
    case Three(wanted) => ParseUndoesPrint(wanted);
    case Word(_, _) =>
    case Listing =>
  }

  predicate GatedValue(wanted: Triple, t: Triple) {
    t.low > wanted.low && t.high < wanted.high
  }

  /** A triple whose first value is above the recommended one while its third is below. */
  predicate Gated(table: seq<Setting>, l: Line) {
    && Known(table, l.name) && EntryOf(table, l.name).Three?
    && IsTriple(l.value)
    && GatedValue(EntryOf(table, l.name).wanted, ParseTriple(l.value))
  }

  /** The two versions differ on a line exactly when it is gated; so they do the same
      on files whose triples all start with at most 4096. */
  lemma VersionsDiffer(table: seq<Setting>, probe: bool, lines: seq<Line>, i: nat)
    requires AllFit(table, lines) && i < |lines|
    ensures ChangeAt(Standalone, table, probe, lines, i) != ChangeAt(TuningModule, table, probe, lines, i)
            <==> Gated(table, lines[i])
  {
  }

  /** Such a line is possible: a `tcp_wmem` whose minimum was raised by hand. */
  lemma GatedLine(probe: bool) returns (lines: seq<Line>)
    ensures AllFit(TableFor(10000), lines) && |lines| == 1
    ensures IsTriple(lines[0].value) && ParseTriple(lines[0].value) == Triple(8192, 65536, 4194304)
    ensures ChangeAt(Standalone, TableFor(10000), probe, lines, 0)
            != ChangeAt(TuningModule, TableFor(10000), probe, lines, 0)
  {
    hide PrintTriple, ParseTriple, IsTriple, TableFor, Find, Decide, ChangeAt, Fits;
    var t := Triple(8192, 65536, 4194304);
    lines := [Line("net.ipv4.tcp_wmem", PrintTriple(t))];
    WantedTriples(10000);
    ParseUndoesPrint(t);
    PrintedFits(EntryOf(TableFor(10000), "net.ipv4.tcp_wmem"), t);
    VersionsDiffer(TableFor(10000), probe, lines, 0);
  }

  lemma PrintedFits(e: Entry, t: Triple)
    requires e.Three?
    ensures Fits(e, PrintTriple(t))
  {
    ParseUndoesPrint(t);
    NotEmpty(PrintTriple(t));
    hide PrintTriple, IsTriple;
  }

  lemma NotEmpty(s: string)
    requires IsTriple(s)
    ensures s != ""
  {
  }

  lemma FindAt(table: seq<Setting>, i: nat)
    requires i < |table| && forall j :: 0 <= j < i ==> table[j].name != table[i].name
    ensures Find(table, table[i].name) == i
  {
  }

  /** What the tables ask for. */
  lemma Wanted(speed: int)
    ensures var table := TableFor(speed);
            && Known(table, "net.core.rmem_max") && EntryOf(table, "net.core.rmem_max") == Single(1147483647)
            && Known(table, "net.core.wmem_max") && EntryOf(table, "net.core.wmem_max") == Single(1147483647)
            && Known(table, "net.ipv4.tcp_mtu_probing") && EntryOf(table, "net.ipv4.tcp_mtu_probing") == Single(1)
            && Known(table, "net.core.default_qdisc") && EntryOf(table, "net.core.default_qdisc") == Word("fq", false)
  {
    var table := TableFor(speed);
    FindAt(table, 0);
    FindAt(table, 1);
    FindAt(table, 2);
    FindAt(table, 5);
    hide Find;
  }

  lemma WantedTriples(speed: int)
    ensures var table := TableFor(speed);
            && Known(table, "net.ipv4.tcp_congestion_control")
            && EntryOf(table, "net.ipv4.tcp_congestion_control") == Word("htcp", true)
            && Known(table, "net.ipv4.tcp_available_congestion_control")
            && EntryOf(table, "net.ipv4.tcp_available_congestion_control") == Listing
            && Known(table, "net.ipv4.tcp_rmem")
            && EntryOf(table, "net.ipv4.tcp_rmem") == Three(Triple(4096, 87380, 1147483647))
            && Known(table, "net.ipv4.tcp_wmem")
            && EntryOf(table, "net.ipv4.tcp_wmem") == Three(Triple(4096, 65536, 1147483647))
  {
    var table := TableFor(speed);
    FindAt(table, 3);
    FindAt(table, 4);
    FindAt(table, 6);
    FindAt(table, 7);
    hide Find;
  }

  lemma WantedFast(speed: int)
    ensures var table := TableFor(speed);
            && (Known(table, "net.core.netdev_max_backlog") <==> speed >= 100000)
            && (Known(table, "net.ipv4.tcp_no_metrics_save") <==> speed >= 100000)
            && (speed >= 100000 ==>
                  && EntryOf(table, "net.core.netdev_max_backlog") == Single(250000)
                  && EntryOf(table, "net.ipv4.tcp_no_metrics_save") == Single(1))
  {
    var table := TableFor(speed);
    if speed >= 100000 {
      FindAt(table, 8);
      FindAt(table, 9);
    }
    hide Find;
  }

  /** What a pass leaves behind, whatever was there before: buffers of at least 1147483647 bytes, MTU
      probing on, the `fq` discipline, and on a NIC of 100 Gb/s or more a backlog of at least 250000. */
  lemma SettingsAfterPass(v: Version, speed: int, probe: bool, lines: seq<Line>, i: nat)
    requires AllFit(TableFor(speed), lines) && i < |lines|
    ensures var name, shown := lines[i].name, Reprinted(v, TableFor(speed), probe, lines)[i].value;
            && (name == "net.core.rmem_max" || name == "net.core.wmem_max" ==> NumberAt(shown, 0) >= 1147483647)
            && (name == "net.ipv4.tcp_mtu_probing" ==> NumberAt(shown, 0) >= 1)
            && (name == "net.core.default_qdisc" ==> shown == "fq")
            && (name == "net.core.netdev_max_backlog" && speed >= 100000 ==> NumberAt(shown, 0) >= 250000)
  {
    hide TableFor, Find, NumberAt, Shown, Decide, Available;
    Wanted(speed);
    WantedFast(speed);
    var table := TableFor(speed);
    var l := lines[i];
    if Known(table, l.name) {
      NeverLowered(v, EntryOf(table, l.name), l.value, Available(table, lines[..i]), probe);
    }
    hide EntryOf, Fits;
  }

  /** The commands of a pass, in the order of the file. */
  function Commands(v: Version, table: seq<Setting>, probe: bool, lines: seq<Line>, n: nat): seq<(string, Change)>
    requires AllFit(table, lines) && n <= |lines|
  {
    if n == 0 then []
    else
      var c := ChangeAt(v, table, probe, lines, n - 1);
      Commands(v, table, probe, lines, n - 1) + if c.Keep? then [] else [(lines[n - 1].name, c)]
  }

  lemma CommandsPlus(v: Version, table: seq<Setting>, probe: bool, lines: seq<Line>, n: nat)
    requires AllFit(table, lines) && n < |lines|
    ensures Commands(v, table, probe, lines, n + 1) ==
            Commands(v, table, probe, lines, n)
            + var c := ChangeAt(v, table, probe, lines, n); if c.Keep? then [] else [(lines[n].name, c)]
  {
  }

  /** Each command belongs to a line that changes, and each such line has its command, in the order of the file:
      `at[j]` is the line of command `j`. */
  lemma {:induction false} CommandsMean(v: Version, table: seq<Setting>, probe: bool, lines: seq<Line>, n: nat)
    returns (at: seq<nat>)
    requires AllFit(table, lines) && n <= |lines|
    ensures |at| == |Commands(v, table, probe, lines, n)|
    ensures forall j, k :: 0 <= j < k < |at| ==> at[j] < at[k]
    ensures forall i: nat :: i in at <==> i < n && ChangeAt(v, table, probe, lines, i) != Keep
    ensures forall j :: 0 <= j < |at| ==>
              at[j] < n
              && Commands(v, table, probe, lines, n)[j] == (lines[at[j]].name, ChangeAt(v, table, probe, lines, at[j]))
  {
    hide ChangeAt, AllFit, Find, Commands;
    at := [];
    if n == 0 {
      NoCommands(v, table, probe, lines);
    } else {
      at := CommandsMean(v, table, probe, lines, n - 1);
      CommandsPlus(v, table, probe, lines, n - 1);
      ghost var before := at;
      assert forall j :: 0 <= j < |before| ==> before[j] in before;
      if ChangeAt(v, table, probe, lines, n - 1) != Keep {
        at := at + [n - 1];
        assert forall i: nat :: i in at <==> i in before || i == n - 1;
      }
    }
  }

  lemma {:induction false} NoChangeNoCommand(v: Version, table: seq<Setting>, probe: bool, lines: seq<Line>, n: nat)
    requires AllFit(table, lines) && n <= |lines|
    requires forall i :: 0 <= i < n ==> ChangeAt(v, table, probe, lines, i) == Keep
    ensures Commands(v, table, probe, lines, n) == []
  {
    hide ChangeAt, AllFit;
    if n > 0 {
      NoChangeNoCommand(v, table, probe, lines, n - 1);
    }
  }

  /** So a second pass over the settings as printed after the first issues no command. */
  lemma SecondPassIsSilent(v: Version, speed: int, probe: bool, lines: seq<Line>)
    requires AllFit(TableFor(speed), lines)
    ensures var again := Reprinted(v, TableFor(speed), probe, lines);
            AllFit(TableFor(speed), again) && Commands(v, TableFor(speed), probe, again, |again|) == []
  {
    hide TableFor, ChangeAt, AllFit;
    var again := Reprinted(v, TableFor(speed), probe, lines);
    SecondPassIsQuiet(v, speed, probe, lines);
    NoChangeNoCommand(v, TableFor(speed), probe, again, |again|);
  }

  lemma {:induction false} SameCommands(table: seq<Setting>, probe: bool, lines: seq<Line>, n: nat)
    requires AllFit(table, lines) && n <= |lines|
    requires forall i :: 0 <= i < |lines| && Known(table, lines[i].name) && EntryOf(table, lines[i].name).Three? ==>
               IsTriple(lines[i].value) && ParseTriple(lines[i].value).low <= EntryOf(table, lines[i].name).wanted.low
    ensures Commands(Standalone, table, probe, lines, n) == Commands(TuningModule, table, probe, lines, n)
  {
    hide ChangeAt, Find, AllFit;
    if n > 0 {
      SameCommands(table, probe, lines, n - 1);
      VersionsDiffer(table, probe, lines, n - 1);
    }
  }

  /** `fDoSystemTuning` with apply on: reads the file line by line, looks each name up, and collects the commands. */
  method SystemTuning(v: Version, speed: int, probe: bool, lines: seq<Line>) returns (commands: seq<(string, Change)>)
    requires AllFit(TableFor(speed), lines)
    ensures commands == Commands(v, TableFor(speed), probe, lines, |lines|)
  {
    hide TableFor, Decide, Find, Commands, Available, Contains, Fits;
    var table := TableFor(speed);
    commands := [];
    var available := false;
    NothingListed(table);
    NoCommands(v, table, probe, lines);
    for x := 0 to |lines|
      invariant commands == Commands(v, table, probe, lines, x)
      invariant available == Available(table, lines[..x])
    {
      var name, value := lines[x].name, lines[x].value;
      var count := Lookup(table, name);
      CommandsPlus(v, table, probe, lines, x);
      AvailablePlus(table, lines[..x], lines[x]);
      assert lines[..x + 1] == lines[..x] + [lines[x]];
      if count < |table| {
        var e := table[count].entry;
        assert e == EntryOf(table, name) && Fits(e, value);
        var change := OneLine(v, e, value, available, probe);
        if change != Keep {
          commands := commands + [(name, change)];
        }
        if e.Listing? && Contains(value, "htcp") {
          available := true;
        }
      }
    }
    assert lines[..|lines|] == lines;
  }

  lemma NoCommands(v: Version, table: seq<Setting>, probe: bool, lines: seq<Line>)
    requires AllFit(table, lines)
    ensures Commands(v, table, probe, lines, 0) == []
  {
  }

  /** The search for a name. */
  method Lookup(table: seq<Setting>, name: string) returns (count: nat)
    ensures count == Find(table, name)
  {
    count := 0;
    while count < |table| && table[count].name != name
      invariant count <= |table| && forall j :: 0 <= j < count ==> table[j].name != name
    {
      count := count + 1;
    }
  }

  /** The nest of conditions for one line that was found in the table. */
  method OneLine(v: Version, e: Entry, value: string, available: bool, probe: bool) returns (change: Change)
    requires Fits(e, value)
    ensures change == Decide(v, e, value, available, probe)
  {
    change := Keep;
    if IsDigit(value[0]) {
      var _, digits := ScanDigits(value, 0);
      var intvalue := Number(digits);
      match e {
        case Single(minimum) =>
          if intvalue <= minimum && intvalue != minimum {
            change := SetNumber(minimum);
          }
        case Three(wanted) =>
          if v.Standalone? || intvalue <= wanted.low {
            var _, _, high := ScanTriple(value);
            if wanted.high > Number(high) {
              change := SetTriple(wanted);
            }
          }
        case _ =>
      }
    } else {
      match e {
        case Word(word, probed) =>
          if value != word {
            if !probed || available || probe {
              change := SetWord(word);
            }
          }
        case _ =>
      }
    }
  }
}
