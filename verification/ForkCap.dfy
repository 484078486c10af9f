/**
 The vitest fork cap (vitestForkCap.ts, shared/types/testConcurrency.ts): reading the
 process table, reaping abandoned workers, and the number of forks that follows.
 */
module ForkCap {
  import opened Options

  // ----- characters as the regular expressions class them -----

  predicate IsDigit(c: char) {
    '0' <= c <= '9'
  }

  /** `\s` */
  predicate IsSpace(c: char) {
    || '\U{9}' <= c <= '\U{D}' || c == ' ' || c == '\U{A0}' || c == '\U{1680}' || '\U{2000}' <= c <= '\U{200A}'
    || c == '\U{2028}' || c == '\U{2029}' || c == '\U{202F}' || c == '\U{205F}' || c == '\U{3000}' || c == '\U{FEFF}'
  }

  /** What `.` does not match. */
  predicate EndsLine(c: char) {
    c == '\n' || c == '\r' || c == '\U{2028}' || c == '\U{2029}'
  }

  predicate All(s: string, cls: char -> bool) {
    forall i :: 0 <= i < |s| ==> cls(s[i])
  }

  predicate Free(s: string, cls: char -> bool) {
    forall i :: 0 <= i < |s| ==> !cls(s[i])
  }

  /** The length of the longest prefix of the class. */
  function Span(s: string, cls: char -> bool): (n: nat)
    ensures n <= |s| && All(s[..n], cls) && (n < |s| ==> !cls(s[n]))
  {
    if s == "" || !cls(s[0]) then 0
    else
      var n := 1 + Span(s[1..], cls);
      assert s[..n] == [s[0]] + s[1..][..n - 1];
      n
  }

  lemma {:induction false} SpanIs(a: string, b: string, cls: char -> bool)
    requires All(a, cls) && (b == "" || !cls(b[0]))
    ensures Span(a + b, cls) == |a| && (a + b)[..|a|] == a && (a + b)[|a|..] == b
  {
    if a == "" {
      assert a + b == b;
    } else {
      SpanIs(a[1..], b, cls);
      assert (a + b)[1..] == a[1..] + b;
    }
  }

  datatype Piece = Piece(head: string, tail: string)

  function CutAt(s: string, cls: char -> bool): (p: Piece)
    ensures s == p.head + p.tail && All(p.head, cls) && (p.tail == "" || !cls(p.tail[0]))
  {
    var n := Span(s, cls);
    Piece(s[..n], s[n..])
  }

  lemma CutAtIs(a: string, b: string, cls: char -> bool)
    requires All(a, cls) && (b == "" || !cls(b[0]))
    ensures CutAt(a + b, cls) == Piece(a, b)
  {
    SpanIs(a, b, cls);
  }

  function TrimStart(s: string): string {
    s[Span(s, IsSpace)..]
  }

  function TrimEnd(s: string): string {
    if s != "" && IsSpace(s[|s| - 1]) then TrimEnd(s[..|s| - 1]) else s
  }

  function Trim(s: string): string {
    TrimEnd(TrimStart(s))
  }

  predicate Trimmed(s: string) {
    s == "" || (!IsSpace(s[0]) && !IsSpace(s[|s| - 1]))
  }

  lemma TrimmedStays(s: string)
    requires Trimmed(s)
    ensures Trim(s) == s
  {
    assert Span(s, IsSpace) == 0;
  }

  // ----- numbers -----

  /** Digits in base ten. */
  function ParseNat(s: string): nat
    requires All(s, IsDigit)
  {
    if s == "" then 0 else
      var front := s[..|s| - 1];
      ParseNat(front) * 10 + ((s[|s| - 1] as int) - ('0' as int))
  }

  function PrintNat(n: nat): (s: string)
    ensures s != "" && All(s, IsDigit)
  {
    var digit := (n % 10 + '0' as int) as char;
    if n < 10 then [digit] else PrintNat(n / 10) + [digit]
  }

  lemma {:induction false} ParsePrinted(n: nat)
    ensures ParseNat(PrintNat(n)) == n
  {
    var s := PrintNat(n);
    if n < 10 {
      assert ParseNat(s[..0]) == 0;
    } else {
      ParsePrinted(n / 10);
      assert s[..|s| - 1] == PrintNat(n / 10);
    }
  }

  // ----- one line -----

  datatype Row = Row(pid: nat, ppid: nat, title: string)

  /** `line` splits as `^(\d+)\s+(\d+)\s+(.*)$` does, the spaces taken greedily. */
  predicate Splits(line: string, pid: string, gap1: string, ppid: string, gap2: string, rest: string) {
    && line == pid + (gap1 + (ppid + (gap2 + rest)))
    && pid != "" && All(pid, IsDigit)
    && gap1 != "" && All(gap1, IsSpace)
    && ppid != "" && All(ppid, IsDigit)
    && gap2 != "" && All(gap2, IsSpace)
    && Free(rest, EndsLine)
    && (rest == "" || !IsSpace(rest[0]))
  }

  datatype Cut = Cut(pid: string, gap1: string, ppid: string, gap2: string, rest: string)

  /** Longest runs of digits and spaces in turn; None is no match. */
  function CutLine(line: string): (cut: Option<Cut>)
    ensures cut.Some? ==> var c := cut.value; Splits(line, c.pid, c.gap1, c.ppid, c.gap2, c.rest)
  {
    var pid := CutAt(line, IsDigit);
    var gap1 := CutAt(pid.tail, IsSpace);
    var ppid := CutAt(gap1.tail, IsDigit);
    var gap2 := CutAt(ppid.tail, IsSpace);
    var rest := gap2.tail;
    if pid.head == "" || gap1.head == "" || ppid.head == "" || gap2.head == "" || !Free(rest, EndsLine) then None
    else Some(Cut(pid.head, gap1.head, ppid.head, gap2.head, rest))
  }

  lemma DigitOrSpace(c: char)
    ensures !(IsDigit(c) && IsSpace(c))
  {
  }

  /** A line has at most one such split, and cutting finds it. */
  lemma CutIsTheSplit(line: string, pid: string, gap1: string, ppid: string, gap2: string, rest: string)
    requires Splits(line, pid, gap1, ppid, gap2, rest)
    ensures CutLine(line) == Some(Cut(pid, gap1, ppid, gap2, rest))
  {
    var afterPpid := gap2 + rest;
    var afterGap := ppid + afterPpid;
    var afterPid := gap1 + afterGap;
    assert afterPid[0] == gap1[0] && afterGap[0] == ppid[0] && afterPpid[0] == gap2[0];
    DigitOrSpace(gap1[0]);
    DigitOrSpace(ppid[0]);
    DigitOrSpace(gap2[0]);
    CutAtIs(pid, afterPid, IsDigit);
    CutAtIs(gap1, afterGap, IsSpace);
    CutAtIs(ppid, afterPpid, IsDigit);
    CutAtIs(gap2, rest, IsSpace);
  }

  /** The row a raw line denotes, if any. */
  function ReadLine(raw: string): Option<Row> {
    var cut := CutLine(TrimStart(raw));
    if cut.None? then None
    else Some(Row(ParseNat(cut.value.pid), ParseNat(cut.value.ppid), Trim(cut.value.rest)))
  }

  const ROOT_TITLE := "node (vitest)"
  const WORKER_START := "node (vitest "

  predicate IsRoot(title: string) {
    Trim(title) == ROOT_TITLE
  }

  predicate IsWorker(title: string) {
    var t := Trim(title);
    && |t| > |WORKER_START| + 1
    && t[..|WORKER_START|] == WORKER_START && t[|t| - 1] == ')'
    && All(t[|WORKER_START|..|t| - 1], IsDigit)
  }

  predicate IsOrphan(r: Row) {
    IsWorker(r.title) && r.ppid == 1
  }

  // ----- the table -----

  /** What `read` makes of each element, in order, without the elements it makes nothing of. */
  function Kept<S, T>(read: S -> Option<T>, s: seq<S>): seq<T> {
    if s == [] then []
    else
      var item := read(s[|s| - 1]);
      Kept(read, s[..|s| - 1]) + if item.Some? then [item.value] else []
  }

  lemma {:induction false} KeptSplit<S, T>(read: S -> Option<T>, a: seq<S>, b: seq<S>)
    ensures Kept(read, a + b) == Kept(read, a) + Kept(read, b)
  {
    if b == [] {
      assert a + b == a;
    } else {
      KeptSplit(read, a, b[..|b| - 1]);
      assert (a + b)[..|a + b| - 1] == a + b[..|b| - 1];
    }
  }

  lemma KeptOne<S, T>(read: S -> Option<T>, x: S)
    ensures Kept(read, [x]) == if read(x).Some? then [read(x).value] else []
  {
    assert [x][..0] == [];
    assert Kept(read, [x]) == Kept(read, [x][..0]) + if read(x).Some? then [read(x).value] else [];
  }

  function RootPid(r: Row): Option<nat> {
    if r.pid > 1 && IsRoot(r.title) then Some(r.pid) else None
  }

  function OrphanPid(r: Row): Option<nat> {
    if r.pid > 1 && IsOrphan(r) then Some(r.pid) else None
  }

  function CountRoots(rows: seq<Row>): nat {
    |Kept(RootPid, rows)|
  }

  /** The abandoned workers, in table order. */
  function OrphanPids(rows: seq<Row>): seq<nat> {
    Kept(OrphanPid, rows)
  }

  lemma RootIsNoWorker(title: string)
    ensures !(IsRoot(title) && IsWorker(title))
  {
  }

  function Lines(s: string): (lines: seq<string>)
    ensures |lines| > 0
  {
    if s == "" then [""]
    else
      var rest := Lines(s[1..]);
      if s[0] == '\n' then [""] + rest else [[s[0]] + rest[0]] + rest[1..]
  }

  /** The rows of the lines that parse. */
  function RowsOf(lines: seq<string>): seq<Row> {
    Kept(ReadLine, lines)
  }

  lemma RowsOneMore(lines: seq<string>, i: nat)
    requires i < |lines|
    ensures RowsOf(lines[..i + 1]) == RowsOf(lines[..i]) + Kept(ReadLine, [lines[i]])
  {
    assert lines[..i + 1] == lines[..i] + [lines[i]];
    KeptSplit(ReadLine, lines[..i], [lines[i]]);
  }

  lemma OneMoreRow(rows: seq<Row>, r: Row)
    ensures CountRoots(rows + [r]) == CountRoots(rows) + if r.pid > 1 && IsRoot(r.title) then 1 else 0
    ensures OrphanPids(rows + [r]) == OrphanPids(rows) + if r.pid > 1 && IsOrphan(r) then [r.pid] else []
  {
    KeptSplit(RootPid, rows, [r]);
    KeptSplit(OrphanPid, rows, [r]);
    KeptOne(RootPid, r);
    KeptOne(OrphanPid, r);
  }

  /** One round of the loop, up to the title. */
  method ReadRow(rawLine: string) returns (row: Option<Row>)
    ensures Kept(ReadLine, [rawLine]) == if row.Some? then [row.value] else []
  {
    KeptOne(ReadLine, rawLine);
    var line := TrimStart(rawLine);
    if |line| == 0 {
      return None;
    }
    var cut := CutLine(line);
    if cut.None? {
      return None;
    }
    row := Some(Row(ParseNat(cut.value.pid), ParseNat(cut.value.ppid), Trim(cut.value.rest)));
  }

  /** One round of the loop: `rows` are those read before. */
  method ScanLine(rawLine: string, ghost rows: seq<Row>, gates: nat, orphanPids: seq<nat>)
    returns (ghost more: seq<Row>, g: nat, o: seq<nat>)
    requires gates == CountRoots(rows) && orphanPids == OrphanPids(rows)
    ensures more == rows + Kept(ReadLine, [rawLine])
    ensures g == CountRoots(more) && o == OrphanPids(more)
  {
    var parsed := ReadRow(rawLine);
    more, g, o := rows, gates, orphanPids;
    if parsed.None? {
      return;
    }
    var row := parsed.value;
    more := rows + [row];
    OneMoreRow(rows, row);
    RootIsNoWorker(row.title);
    if row.pid <= 1 {
      return;
    }
    if IsRoot(row.title) {
      g := g + 1;
    } else if IsOrphan(row) {
      o := o + [row.pid];
    }
  }

  /** `listing`: the output of ps, or None when it throws. */
  method ScanVitestProcesses(listing: Option<string>) returns (gates: nat, orphanPids: seq<nat>)
    ensures listing.None? ==> gates == 1 && orphanPids == []
    ensures listing.Some? ==>
              var rows := RowsOf(Lines(listing.value));
              gates == (if CountRoots(rows) == 0 then 1 else CountRoots(rows)) && orphanPids == OrphanPids(rows)
  {
    if listing.None? {
      return 1, [];
    }
    var lines := Lines(listing.value);
    ghost var rows: seq<Row> := [];
    gates, orphanPids := 0, [];
    for i := 0 to |lines|
      invariant rows == RowsOf(lines[..i])
      invariant gates == CountRoots(rows) && orphanPids == OrphanPids(rows)
    {
      RowsOneMore(lines, i);
      rows, gates, orphanPids := ScanLine(lines[i], rows, gates, orphanPids);
    }
    assert lines[..|lines|] == lines;
    gates := if gates > 1 then gates else 1;
  }

  // ----- scanning inverts printing -----

  datatype Spacing = Spacing(lead: string, gap1: string, gap2: string, trail: string)

  /** A line of the listing: a printed process, or text that is none. */
  datatype Line = Printed(row: Row, spacing: Spacing) | Noise(text: string)

  predicate Blank(s: string) {
    All(s, IsSpace) && '\n' !in s
  }

  predicate Printable(l: Line) {
    match l
    case Printed(row, sp) =>
      && Trimmed(row.title) && Free(row.title, EndsLine)
      && Blank(sp.lead) && Blank(sp.gap1) && Blank(sp.gap2) && sp.gap1 != "" && sp.gap2 != ""
      && Blank(sp.trail) && Free(sp.trail, EndsLine) && (row.title == "" ==> sp.trail == "")
    case Noise(text) => '\n' !in text && ReadLine(text).None?
  }

  function PrintLine(l: Line): string {
    match l
    case Printed(row, sp) => sp.lead + (PrintNat(row.pid) + (sp.gap1 + (PrintNat(row.ppid) + (sp.gap2 + (row.title + sp.trail)))))
    case Noise(text) => text
  }

  /** Every line ends in a newline, as ps writes it. */
  function PrintTable(lines: seq<Line>): string {
    if lines == [] then "" else PrintLine(lines[0]) + "\n" + PrintTable(lines[1..])
  }

  function Processes(lines: seq<Line>): seq<Row> {
    if lines == [] then []
    else (if lines[0].Printed? then [lines[0].row] else []) + Processes(lines[1..])
  }

  lemma {:induction false} TrimEndDrops(s: string, trail: string)
    requires All(trail, IsSpace) && (s == "" || !IsSpace(s[|s| - 1]))
    ensures TrimEnd(s + trail) == s
  {
    if trail == "" {
      assert s + trail == s;
    } else {
      TrimEndDrops(s, trail[..|trail| - 1]);
      assert (s + trail)[..|s + trail| - 1] == s + trail[..|trail| - 1];
    }
  }

  lemma TrimTitle(title: string, trail: string)
    requires Trimmed(title) && All(trail, IsSpace) && (title == "" ==> trail == "")
    ensures Trim(title + trail) == title
    ensures title + trail == "" || !IsSpace((title + trail)[0])
  {
    var s := title + trail;
    assert s != "" ==> s[0] == title[0];
    assert Span(s, IsSpace) == 0;
    assert TrimStart(s) == s;
    TrimEndDrops(title, trail);
  }

  lemma TrimLead(lead: string, line: string)
    requires All(lead, IsSpace) && line != "" && IsDigit(line[0])
    ensures TrimStart(lead + line) == line
  {
    DigitOrSpace(line[0]);
    SpanIs(lead, line, IsSpace);
  }

  lemma ReadPrinted(row: Row, sp: Spacing)
    requires Printable(Printed(row, sp))
    ensures ReadLine(PrintLine(Printed(row, sp))) == Some(row)
  {
    var pid, ppid, rest := PrintNat(row.pid), PrintNat(row.ppid), row.title + sp.trail;
    TrimTitle(row.title, sp.trail);
    var line := pid + (sp.gap1 + (ppid + (sp.gap2 + rest)));
    assert line[0] == pid[0];
    TrimLead(sp.lead, line);
    CutIsTheSplit(line, pid, sp.gap1, ppid, sp.gap2, rest);
    ParsePrinted(row.pid);
    ParsePrinted(row.ppid);
  }

  lemma {:induction false} LinesSplit(a: string, b: string)
    requires '\n' !in a
    ensures Lines(a + "\n" + b) == [a] + Lines(b)
  {
    var s := a + "\n" + b;
    if a == "" {
      assert s[1..] == b;
    } else {
      LinesSplit(a[1..], b);
      assert s[1..] == a[1..] + "\n" + b;
      assert [a[0]] + a[1..] == a;
    }
  }

  lemma NoNewlineInLine(l: Line)
    requires Printable(l)
    ensures '\n' !in PrintLine(l)
  {
    if l.Printed? {
      var n, m := PrintNat(l.row.pid), PrintNat(l.row.ppid);
      forall i | 0 <= i < |n| ensures n[i] != '\n' {
        assert IsDigit(n[i]);
      }
      forall i | 0 <= i < |m| ensures m[i] != '\n' {
        assert IsDigit(m[i]);
      }
      forall i | 0 <= i < |l.row.title| ensures l.row.title[i] != '\n' {
        assert !EndsLine(l.row.title[i]);
      }
    }
  }

  lemma ReadPrintedLine(l: Line)
    requires Printable(l)
    ensures RowsOf([PrintLine(l)]) == if l.Printed? then [l.row] else []
    ensures '\n' !in PrintLine(l)
  {
    NoNewlineInLine(l);
    KeptOne(ReadLine, PrintLine(l));
    if l.Printed? {
      ReadPrinted(l.row, l.spacing);
    }
  }

  lemma EmptyLineIsNoRow()
    ensures RowsOf([""]) == []
  {
    assert Span("", IsSpace) == 0 && Span("", IsDigit) == 0;
    KeptOne(ReadLine, "");
  }

  lemma RowsSplit(a: string, lines: seq<string>)
    ensures RowsOf([a] + lines) == RowsOf([a]) + RowsOf(lines)
  {
    KeptSplit(ReadLine, [a], lines);
  }

  ghost predicate AllPrintable(lines: seq<Line>) {
    forall l | l in lines :: Printable(l)
  }

  /** The rows read are the processes printed. */
  lemma {:induction false} RowsOfPrinted(lines: seq<Line>)
    requires AllPrintable(lines)
    ensures RowsOf(Lines(PrintTable(lines))) == Processes(lines)
  {
    if lines == [] {
      EmptyLineIsNoRow();
    } else {
      var first, rest := lines[0], lines[1..];
      assert first in lines && AllPrintable(rest);
      var text, after := PrintLine(first), Lines(PrintTable(rest));
      ReadPrintedLine(first);
      LinesSplit(text, PrintTable(rest));
      assert Lines(PrintTable(lines)) == [text] + after;
      RowsSplit(text, after);
      RowsOfPrinted(rest);
    }
  }

  /**
   Scanning inverts printing: whatever spacing a table is printed with and whatever other lines stand
   between, the scan returns the roots, at least one, and exactly the orphans in order.
   */
  method ScanInvertsPrinting(lines: seq<Line>) returns (gates: nat, orphanPids: seq<nat>)
    requires AllPrintable(lines)
    ensures gates == (if CountRoots(Processes(lines)) == 0 then 1 else CountRoots(Processes(lines)))
    ensures orphanPids == OrphanPids(Processes(lines))
  {
    RowsOfPrinted(lines);
    gates, orphanPids := ScanVitestProcesses(Some(PrintTable(lines)));
  }

  /** A worker's title, trimmed, is `node (vitest ` with at least one digit and `)`. */
  lemma WorkerTitleIsExact(title: string)
    ensures IsWorker(title) <==> exists digits :: Trim(title) == "node (vitest " + digits + ")" && digits != "" && All(digits, IsDigit)
    ensures IsRoot(title) <==> Trim(title) == "node (vitest)"
  {
    var t, n := Trim(title), |WORKER_START|;
    if IsWorker(title) {
      var digits := t[n..|t| - 1];
      assert t == WORKER_START + digits + ")";
    }
    if digits :| t == "node (vitest " + digits + ")" && digits != "" && All(digits, IsDigit) {
      assert t[n..|t| - 1] == digits;
    }
  }

  /** The white space of JavaScript's regular expressions, and its line terminators. */
  lemma SpacesAreExact(c: char)
    ensures IsSpace(c) <==> c in {'\t', '\n', '\U{B}', '\U{C}', '\r', ' ', '\U{A0}', '\U{1680}', '\U{2000}', '\U{2001}', '\U{2002}',
                                  '\U{2003}', '\U{2004}', '\U{2005}', '\U{2006}', '\U{2007}', '\U{2008}', '\U{2009}', '\U{200A}',
                                  '\U{2028}', '\U{2029}', '\U{202F}', '\U{205F}', '\U{3000}', '\U{FEFF}'}
    ensures EndsLine(c) <==> c in {'\n', '\r', '\U{2028}', '\U{2029}'}
  {
  }

  /** The titles vitest gives. */
  lemma TitlesMean(n: nat)
    ensures IsRoot(ROOT_TITLE) && IsWorker(WORKER_START + PrintNat(n) + ")") && !IsRoot(WORKER_START + PrintNat(n) + ")")
  {
    var digits := PrintNat(n);
    var t := WORKER_START + digits + ")";
    TrimmedStays(ROOT_TITLE);
    assert t[0] == 'n' && t[|t| - 1] == ')';
    TrimmedStays(t);
    assert t[..|WORKER_START|] == WORKER_START;
    assert t[|WORKER_START|..|t| - 1] == digits;
    RootIsNoWorker(t);
  }

  // ----- reaping -----

  function CountTrue(s: seq<bool>): (n: nat)
    ensures n <= |s|
  {
    if s == [] then 0 else CountTrue(s[..|s| - 1]) + if s[|s| - 1] then 1 else 0
  }

  /** `accepted`: for each kill in turn, whether it returns rather than throws. `tried`: the pids killed, in order. */
  method ReapOrphans(pids: seq<nat>, accepted: seq<bool>) returns (reaped: nat, tried: seq<nat>)
    requires |accepted| == |pids|
    ensures tried == pids
    ensures reaped == CountTrue(accepted)
  {
    reaped, tried := 0, [];
    for i := 0 to |pids|
      invariant tried == pids[..i]
      invariant reaped == CountTrue(accepted[..i])
    {
      assert accepted[..i + 1][..i] == accepted[..i];
      tried := tried + [pids[i]];
      if accepted[i] {
        reaped := reaped + 1;
      }
    }
    assert accepted[..|accepted|] == accepted;
  }

  datatype Env = Env(maxForks: Option<real>, reap: Option<string>, managed: Option<string>)

  predicate Managed(env: Env) {
    env.managed == Some("1")
  }

  predicate ShouldReap(env: Env) {
    if env.reap == Some("1") then true else if env.reap == Some("0") then false else Managed(env)
  }

  /** `maxForks`: the finite number its text denotes, None when unset, blank or no number. */
  function ExplicitCap(env: Env): Option<nat> {
    if env.maxForks.None? then None
    else
      var n := env.maxForks.value.Floor;
      if n as real == env.maxForks.value && n > 0 then Some(n) else None
  }

  function Max(a: int, b: int): int {
    if a >= b then a else b
  }

  function Min(a: int, b: int): int {
    if a <= b then a else b
  }

  const MIN_MANAGED_FORKS := 2

  function ManagedForkCap(cores: int, concurrentGates: int, orphanWorkers: int): int {
    var effectiveCores := Max(1, cores - Max(0, orphanWorkers));
    var usable := Max(1, effectiveCores - 1);
    Max(MIN_MANAGED_FORKS, Min(usable, effectiveCores / Max(1, concurrentGates)))
  }

  /** The shares of `gates` equal gates fit beside the orphans, and leave one core. */
  predicate Fits(cap: int, cores: int, gates: int, orphans: int) {
    cap * gates + orphans <= cores && cap + orphans <= cores - 1
  }

  /** The managed cap is the largest that fits, and never below two; it fits exactly when two per gate do. */
  lemma ManagedCapIsLargestFit(cores: int, gates: int, orphans: nat)
    requires gates >= 1
    ensures var cap := ManagedForkCap(cores, gates, orphans);
            && cap >= 2
            && (cap > 2 ==> Fits(cap, cores, gates, orphans))
            && (Fits(cap, cores, gates, orphans) <==> Fits(2, cores, gates, orphans))
            && forall more :: more > cap ==> !Fits(more, cores, gates, orphans)
  {
    var cap := ManagedForkCap(cores, gates, orphans);
    var e := Max(1, cores - orphans);
    var share := e / gates;
    DivisionBounds(e, gates);
    if cap > 2 {
      assert cap <= share;
      MulMonotone(cap, share, gates);
    }
    MulMonotone(2, cap, gates);
    forall more | more > cap ensures !Fits(more, cores, gates, orphans) {
      if more > share {
        MulMonotone(share + 1, more, gates);
      }
    }
  }

  lemma DivisionBounds(e: int, g: int)
    requires g >= 1 && e >= 0
    ensures (e / g) * g <= e < (e / g + 1) * g
  {
  }

  lemma MulMonotone(a: int, b: int, g: int)
    requires a <= b && g >= 0
    ensures a * g <= b * g
  {
  }

  /** Reaping is asked for, or not refused in a managed environment. */
  ghost predicate Reaps(env: Env) {
    env.reap == Some("1") || (env.reap != Some("0") && env.managed == Some("1"))
  }

  /** The explicit cap is the positive whole number `n`. */
  ghost predicate Pins(env: Env, n: nat) {
    n > 0 && env.maxForks == Some(n as real)
  }

  lemma FloorOfWhole(n: nat)
    ensures (n as real).Floor == n
  {
  }

  lemma ExplicitCapIsExact(env: Env)
    ensures forall n: nat :: ExplicitCap(env) == Some(n) <==> Pins(env, n)
  {
    forall n: nat ensures ExplicitCap(env) == Some(n) <==> Pins(env, n) {
      FloorOfWhole(n);
    }
  }

  /** `accepted`: as for ReapOrphans, one per orphan found. */
  method ForkPoolOptions(env: Env, listing: Option<string>, accepted: seq<bool>, cores: int)
    returns (maxWorkers: Option<int>, survivingOrphans: nat, tried: seq<nat>)
    requires listing.Some? ==> |accepted| == |OrphanPids(RowsOf(Lines(listing.value)))|
    requires listing.None? ==> accepted == []
    ensures tried == if Reaps(env) && listing.Some? then OrphanPids(RowsOf(Lines(listing.value))) else []
    ensures survivingOrphans + (if Reaps(env) then CountTrue(accepted) else 0) == |accepted|
    ensures forall n: nat | Pins(env, n) :: maxWorkers == Some(n)
    ensures (forall n: nat :: !Pins(env, n)) ==>
              var roots := if listing.None? then 0 else CountRoots(RowsOf(Lines(listing.value)));
              maxWorkers == if env.managed == Some("1")
                            then Some(ManagedForkCap(cores, if roots == 0 then 1 else roots, survivingOrphans)) else None
  {
    ExplicitCapIsExact(env);
    var gates, orphanPids := ScanVitestProcesses(listing);
    survivingOrphans, tried := |orphanPids|, [];
    if survivingOrphans > 0 && ShouldReap(env) {
      var reaped;
      reaped, tried := ReapOrphans(orphanPids, accepted);
      survivingOrphans := survivingOrphans - reaped;
    }
    if ExplicitCap(env).Some? {
      return Some(ExplicitCap(env).value), survivingOrphans, tried;
    }
    if !Managed(env) {
      return None, survivingOrphans, tried;
    }
    maxWorkers := Some(ManagedForkCap(cores, gates, survivingOrphans));
  }

  /** Only an abandoned worker's pid is ever killed: the table has its row, titled as a worker, adopted by pid 1. */
  lemma {:induction false} EveryOrphanHasItsRow(rows: seq<Row>, pid: nat)
    ensures pid in OrphanPids(rows) <==> pid > 1 && exists r :: r in rows && r.pid == pid && IsWorker(r.title) && r.ppid == 1
  {
    if rows != [] {
      var front, last := rows[..|rows| - 1], rows[|rows| - 1];
      EveryOrphanHasItsRow(front, pid);
      assert rows == front + [last];
      assert last in rows;
    }
  }
}
