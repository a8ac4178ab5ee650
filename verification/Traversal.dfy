/**
 Bounded reading of a directory tree. Everything in the tree is either yielded, counted as skipped, or cut off by
 a recorded limit; which of these happens depends only on the sizes of the tree.
 */
module Traversal {
  import opened Wrappers
  import opened Collections
  import opened LittleEndian

  type Path = seq<string>

  /** What a directory entry is, without following symbolic links. */
  datatype Node =
    | Symlink
    | Directory(readable: bool, entries: seq<Entry>)
    | File(regular: bool, readable: bool, data: Bytes)

  datatype Entry = Entry(name: string, node: Node)

  /** What becomes of an entry that is neither a link nor a directory. */
  datatype Outcome = Ignored | Skipped(reason: string) | Taken(path: Path, data: Bytes)

  type Judge = (Path, Node) -> Outcome

  // ----- what a tree holds -----

  datatype Tally = Tally(entries: nat, bytes: nat, files: multiset<(Path, Bytes)>, skips: multiset<string>)

  function Zero(): Tally { Tally(0, 0, multiset{}, multiset{}) }

  function OneEntry(): Tally { Tally(1, 0, multiset{}, multiset{}) }

  function Plus(a: Tally, b: Tally): Tally {
    Tally(a.entries + b.entries, a.bytes + b.bytes, a.files + b.files, a.skips + b.skips)
  }

  function OfOutcome(o: Outcome): Tally {
    match o
    case Ignored => Zero()
    case Skipped(reason) => Tally(0, 0, multiset{}, multiset{reason})
    case Taken(path, data) => Tally(0, |data|, multiset{(path, data)}, multiset{})
  }

  /** What becomes of an entry itself, when a directory is put off and anything else is judged. */
  function OutcomeOf(judge: Judge, path: Path, e: Entry): Outcome {
    match e.node
    case Symlink => Skipped("symlink_entry")
    case Directory(_, _) => Ignored
    case File(_, _, _) => judge(path + [e.name], e.node)
  }

  ghost function OfEntry(judge: Judge, path: Path, e: Entry): Tally
    decreases e, 1
  {
    Plus(OneEntry(),
         if e.node.Directory? then OfDirectory(judge, path + [e.name], e.node)
             else OfOutcome(OutcomeOf(judge, path, e)))
  }

  ghost function OfDirectory(judge: Judge, path: Path, d: Node): Tally
    decreases d, 0
  {
    if d.Directory? && d.readable then OfEntries(judge, path, d.entries) else OfOutcome(Skipped("directory_read_error"))
  }

  ghost function OfEntries(judge: Judge, path: Path, entries: seq<Entry>): Tally
    decreases entries, 0
  {
    if entries == [] then Zero() else Plus(OfEntry(judge, path, entries[0]), OfEntries(judge, path, entries[1..]))
  }

  ghost function Sum<T>(weigh: T -> Tally, items: seq<T>): Tally {
    if items == [] then Zero() else Plus(weigh(items[0]), Sum(weigh, items[1..]))
  }

  ghost function Weigher(judge: Judge, path: Path): Entry -> Tally { (e: Entry) => OfEntry(judge, path, e) }

  type Pending = seq<(Path, Node)>

  ghost function DirectoryWeigher(judge: Judge): ((Path, Node)) -> Tally {
    (d: (Path, Node)) => OfDirectory(judge, d.0, d.1)
  }

  lemma {:induction false} EntriesAreSum(judge: Judge, path: Path, entries: seq<Entry>)
    ensures OfEntries(judge, path, entries) == Sum(Weigher(judge, path), entries)
    decreases |entries|
  {
    if entries != [] { EntriesAreSum(judge, path, entries[1..]); }
  }

  lemma PlusZero(a: Tally)
    ensures Plus(a, Zero()) == a && Plus(Zero(), a) == a
  {
  }

  ghost predicate Part(a: Tally, b: Tally) {
    a.entries <= b.entries && a.bytes <= b.bytes && a.files <= b.files && a.skips <= b.skips
  }

  lemma PartOfSum(a: Tally, b: Tally)
    ensures Part(a, Plus(a, b)) && Part(b, Plus(a, b))
  {
  }

  // ----- sorting a bounded prefix -----

  predicate Before(a: string, b: string) {
    if a == "" then true
    else if b == "" then false
    else a[0] < b[0] || (a[0] == b[0] && Before(a[1..], b[1..]))
  }

  function Insert(x: Entry, sorted: seq<Entry>, fold: string -> string): seq<Entry> {
    if sorted == [] || Before(fold(x.name), fold(sorted[0].name)) then [x] + sorted
    else [sorted[0]] + Insert(x, sorted[1..], fold)
  }

  /** Stable sorting by folded name. */
  function Sorted(entries: seq<Entry>, fold: string -> string): seq<Entry> {
    if entries == [] then [] else Insert(entries[0], Sorted(entries[1..], fold), fold)
  }

  /** One name is a beginning of the other, or has the smaller character where they first differ. */
  ghost predicate Lexicographic(a: string, b: string) {
    a <= b || exists k :: SmallerAt(a, b, k)
  }

  ghost predicate SmallerAt(a: string, b: string, k: nat) {
    k < |a| && k < |b| && a[..k] == b[..k] && a[k] < b[k]
  }

  lemma {:induction false} BeforeExactly(a: string, b: string)
    ensures Before(a, b) <==> Lexicographic(a, b)
    decreases |a|
  {
    if a != "" && b != "" {
      if a[0] == b[0] {
        BeforeExactly(a[1..], b[1..]);
        DiffersLater(a, b);
      } else if a[0] < b[0] {
        assert SmallerAt(a, b, 0);
      }
    }
  }

  lemma DiffersLater(a: string, b: string)
    requires a != "" && b != "" && a[0] == b[0]
    ensures Lexicographic(a, b) <==> Lexicographic(a[1..], b[1..])
  {
    var c, d := a[1..], b[1..];
    assert a == [a[0]] + c && b == [b[0]] + d;
    forall k: nat | SmallerAt(c, d, k) ensures SmallerAt(a, b, k + 1) {
      assert a[..k + 1] == [a[0]] + c[..k] && b[..k + 1] == [b[0]] + d[..k];
    }
    forall k: nat | SmallerAt(a, b, k) ensures k > 0 && SmallerAt(c, d, k - 1) {
      assert c[..k - 1] == a[..k][1..] && d[..k - 1] == b[..k][1..];
    }
  }

  lemma {:induction false} BeforeIsTotal(a: string, b: string)
    ensures Before(a, b) || Before(b, a)
    decreases |a|
  {
    if a != "" && b != "" { BeforeIsTotal(a[1..], b[1..]); }
  }

  lemma {:induction false} BeforeTransitive(a: string, b: string, c: string)
    requires Before(a, b) && Before(b, c)
    ensures Before(a, c)
    decreases |a|
  {
    if a != "" && b != "" && c != "" && a[0] == b[0] == c[0] { BeforeTransitive(a[1..], b[1..], c[1..]); }
  }

  ghost predicate InOrder(entries: seq<Entry>, fold: string -> string) {
    forall i, j :: 0 <= i < j < |entries| ==> Before(fold(entries[i].name), fold(entries[j].name))
  }

  lemma {:induction false} InsertOrders(x: Entry, sorted: seq<Entry>, fold: string -> string)
    requires InOrder(sorted, fold)
    ensures InOrder(Insert(x, sorted, fold), fold)
    ensures forall e :: e in Insert(x, sorted, fold) ==> e == x || e in sorted
    decreases |sorted|
  {
    var name := fold(x.name);
    if sorted != [] {
      var first, rest := fold(sorted[0].name), sorted[1..];
      if Before(name, first) {
        forall i | 0 <= i < |sorted| ensures Before(name, fold(sorted[i].name)) {
          if i > 0 { BeforeTransitive(name, first, fold(sorted[i].name)); }
        }
      } else {
        BeforeIsTotal(name, first);
        InsertOrders(x, rest, fold);
        var after := Insert(x, rest, fold);
        forall e | e in after ensures Before(first, fold(e.name)) {
          if e != x {
            var i :| 0 <= i < |rest| && rest[i] == e;
            assert sorted[i + 1] == e;
          }
        }
      }
    }
  }

  /** Sorting puts the folded names into lexicographic order. */
  lemma {:induction false} SortedInOrder(entries: seq<Entry>, fold: string -> string)
    ensures InOrder(Sorted(entries, fold), fold)
    ensures multiset(Sorted(entries, fold)) == multiset(entries)
    decreases |entries|
  {
    if entries != [] {
      SortedInOrder(entries[1..], fold);
      InsertOrders(entries[0], Sorted(entries[1..], fold), fold);
      InsertMultiset(entries[0], Sorted(entries[1..], fold), fold);
      assert entries == [entries[0]] + entries[1..];
    }
  }

  lemma {:induction false} InsertMultiset(x: Entry, sorted: seq<Entry>, fold: string -> string)
    ensures multiset(Insert(x, sorted, fold)) == multiset(sorted) + multiset{x}
    decreases |sorted|
  {
    if sorted != [] && !Before(fold(x.name), fold(sorted[0].name)) {
      InsertMultiset(x, sorted[1..], fold);
      assert sorted == [sorted[0]] + sorted[1..];
    }
  }

  lemma {:induction false} InsertKeeps(x: Entry, sorted: seq<Entry>, fold: string -> string, weigh: Entry -> Tally)
    ensures Sum(weigh, Insert(x, sorted, fold)) == Plus(weigh(x), Sum(weigh, sorted))
    decreases |sorted|
  {
    if sorted == [] || Before(fold(x.name), fold(sorted[0].name)) {
      assert ([x] + sorted)[1..] == sorted;
    } else {
      var rest := Insert(x, sorted[1..], fold);
      InsertKeeps(x, sorted[1..], fold, weigh);
      assert ([sorted[0]] + rest)[1..] == rest;
      Swap(weigh(sorted[0]), weigh(x), Sum(weigh, sorted[1..]));
    }
  }

  lemma Swap(a: Tally, b: Tally, c: Tally)
    ensures Plus(a, Plus(b, c)) == Plus(b, Plus(a, c))
  {
  }

  /** The order of the entries does not matter for what they hold. */
  lemma {:induction false} SortingKeeps(entries: seq<Entry>, fold: string -> string, weigh: Entry -> Tally)
    ensures Sum(weigh, Sorted(entries, fold)) == Sum(weigh, entries)
    decreases |entries|
  {
    if entries != [] {
      SortingKeeps(entries[1..], fold, weigh);
      InsertKeeps(entries[0], Sorted(entries[1..], fold), fold, weigh);
    }
  }

  lemma SumFirst<T>(weigh: T -> Tally, x: T, rest: seq<T>)
    ensures Sum(weigh, [x] + rest) == Plus(weigh(x), Sum(weigh, rest))
  {
    assert ([x] + rest)[1..] == rest;
  }

  lemma {:induction false} SumsJoin<T>(weigh: T -> Tally, a: seq<T>, b: seq<T>)
    ensures Sum(weigh, a + b) == Plus(Sum(weigh, a), Sum(weigh, b))
    decreases |a|
  {
    if a == [] {
      assert a + b == b;
    } else {
      var rest := a[1..];
      SumsJoin(weigh, rest, b);
      TakeFirst(a, b);
      SumFirst(weigh, a[0], rest + b);
      SumFirst(weigh, a[0], rest);
      PlusAssociates(weigh(a[0]), Sum(weigh, rest), Sum(weigh, b));
    }
  }

  lemma PlusAssociates(a: Tally, b: Tally, c: Tally)
    ensures Plus(a, Plus(b, c)) == Plus(Plus(a, b), c)
  {
  }

  lemma {:induction false} EachCounted(weigh: Entry -> Tally, entries: seq<Entry>)
    requires forall e :: weigh(e).entries >= 1
    ensures Sum(weigh, entries).entries >= |entries|
    decreases |entries|
  {
    if entries != [] { EachCounted(weigh, entries[1..]); }
  }

  // ----- coverage -----

  datatype Status = NotAnalyzed | AnalyzedHeuristically | Partial

  datatype Coverage = Coverage(
    status: Status,
    files: nat,
    bytes: nat,
    skipped: nat,
    skipReasons: map<string, nat>,
    limitReasons: map<string, nat>,
    entries: nat,
    limitsReached: bool)

  function Count(reasons: map<string, nat>, reason: string): nat {
    if reason in reasons then reasons[reason] else 0
  }

  function WithSkip(c: Coverage, reason: string): Coverage {
    c.(skipped := c.skipped + 1, skipReasons := c.skipReasons[reason := Count(c.skipReasons, reason) + 1])
  }

  function WithLimit(c: Coverage, reason: string): Coverage {
    c.(limitsReached := true, limitReasons := c.limitReasons[reason := Count(c.limitReasons, reason) + 1])
  }

  function StatusOf(c: Coverage): Status {
    if c.limitsReached || c.skipped != 0 then Partial
    else if c.files != 0 then AnalyzedHeuristically
    else NotAnalyzed
  }

  /** What has happened since some earlier coverage. */
  datatype Run = Run(done: Tally, limits: multiset<string>, yielded: seq<(Path, Bytes)>)

  function Started(): Run { Run(Zero(), multiset{}, []) }

  /** Every reason is counted as often again as it is in the bag. */
  ghost function Grown(before: map<string, nat>): (map<string, nat>, multiset<string>) -> bool {
    (now: map<string, nat>, bag: multiset<string>) => forall r :: Count(now, r) == Count(before, r) + bag[r]
  }

  /** The counters moved by exactly what the run did. */
  ghost predicate Moved(from: Coverage, c: Coverage, run: Run) {
    && c.entries == from.entries + run.done.entries && c.bytes == from.bytes + run.done.bytes
    && c.files == from.files + |run.yielded| && c.skipped == from.skipped + |run.done.skips|
    && Grown(from.skipReasons)(c.skipReasons, run.done.skips) && Grown(from.limitReasons)(c.limitReasons, run.limits)
    && (c.limitsReached <==> from.limitsReached || run.limits != multiset{})
    && multiset(run.yielded) == run.done.files
  }

  ghost function Tracks(from: Coverage): (Coverage, Run) -> bool {
    (c: Coverage, run: Run) => Moved(from, c, run)
  }

  lemma TracksNothing(from: Coverage)
    ensures Tracks(from)(from, Started())
  {
    GrownByNothing(from.skipReasons);
    GrownByNothing(from.limitReasons);
  }

  lemma TracksEntry(from: Coverage, c: Coverage, run: Run)
    requires Tracks(from)(c, run)
    ensures Tracks(from)(c.(entries := c.entries + 1), run.(done := Plus(run.done, OneEntry())))
  {
  }

  lemma Bumped(now: map<string, nat>, before: map<string, nat>, bag: multiset<string>, reason: string)
    requires Grown(before)(now, bag)
    ensures Grown(before)(now[reason := Count(now, reason) + 1], bag + multiset{reason})
  {
    assert forall r :: Count(now, r) == Count(before, r) + bag[r];
    var bumped, more := now[reason := Count(now, reason) + 1], bag + multiset{reason};
    assert forall r :: Count(bumped, r) == Count(before, r) + more[r];
  }

  lemma GrownByNothing(before: map<string, nat>)
    ensures Grown(before)(before, multiset{})
  {
  }

  lemma TracksSkip(from: Coverage, c: Coverage, run: Run, reason: string)
    requires Tracks(from)(c, run)
    ensures Tracks(from)(WithSkip(c, reason), run.(done := Plus(run.done, OfOutcome(Skipped(reason)))))
  {
    Bumped(c.skipReasons, from.skipReasons, run.done.skips, reason);
  }

  lemma TracksIgnored(from: Coverage, c: Coverage, run: Run)
    requires Tracks(from)(c, run)
    ensures Tracks(from)(c, run.(done := Plus(run.done, OfOutcome(Ignored))))
  {
  }

  lemma TracksTaken(from: Coverage, c: Coverage, run: Run, path: Path, data: Bytes, c': Coverage, run': Run)
    requires Tracks(from)(c, run)
    requires c' == c.(files := c.files + 1, bytes := c.bytes + |data|) && run'.limits == run.limits
    requires run'.done == Plus(run.done, OfOutcome(Taken(path, data)))
    requires run'.yielded == run.yielded + [(path, data)]
    ensures Tracks(from)(c', run')
  {
    assert multiset(run.yielded + [(path, data)]) == multiset(run.yielded) + multiset{(path, data)};
    assert run.done.skips + multiset{} == run.done.skips;
  }

  lemma TracksLimit(from: Coverage, c: Coverage, run: Run, reason: string)
    requires Tracks(from)(c, run)
    ensures Tracks(from)(WithLimit(c, reason), run.(limits := run.limits + multiset{reason}))
  {
    Bumped(c.limitReasons, from.limitReasons, run.limits, reason);
    assert reason in run.limits + multiset{reason};
    assert Moved(from, WithLimit(c, reason), run.(limits := run.limits + multiset{reason}));
  }

  // ----- reading -----

  /** What a caller's filter says about a path; it may also fail. */
  datatype Verdict = Accepts | Rejects | Fails

  /** How read treats an entry that is neither a link nor a directory. */
  function ReadJudge(matches: Path -> bool, filter: Path -> Verdict, maxFileBytes: nat): Judge {
    (path: Path, node: Node) =>
      if !node.File? || !matches(path) || filter(path) == Rejects then Ignored
      else if filter(path) == Fails then Skipped("path_filter_error")
      else if !node.readable then Skipped("unreadable_or_raced_file")
      else if !node.regular then Skipped("non_regular_or_file_size_limit")
      else if |node.data| > maxFileBytes then Skipped("file_size_limit")
      else Taken(path, node.data)
  }

  /** More than the budgets that are left can hold. */
  ghost predicate Over(from: Coverage, t: Tally, maxEntries: nat, maxTotalBytes: nat) {
    from.entries + t.entries > maxEntries || from.bytes + t.bytes > maxTotalBytes
  }

  function WithOutcome(c: Coverage, o: Outcome): Coverage {
    match o
    case Ignored => c
    case Skipped(reason) => WithSkip(c, reason)
    case Taken(_, data) => c.(files := c.files + 1, bytes := c.bytes + |data|)
  }

  function YieldOf(o: Outcome): seq<(Path, Bytes)> {
    match o
    case Taken(path, data) => [(path, data)]
    case _ => []
  }

  function AfterOutcome(run: Run, o: Outcome): Run {
    Run(Plus(run.done, OfOutcome(o)), run.limits, run.yielded + YieldOf(o))
  }

  lemma YieldsNothing(run: Run, o: Outcome)
    requires !o.Taken?
    ensures AfterOutcome(run, o) == run.(done := Plus(run.done, OfOutcome(o)))
  {
  }

  lemma TracksOutcome(from: Coverage, c: Coverage, run: Run, o: Outcome)
    requires Tracks(from)(c, run)
    ensures Tracks(from)(WithOutcome(c, o), AfterOutcome(run, o))
  {
    match o
    case Ignored =>
      TracksIgnored(from, c, run);
      YieldsNothing(run, o);
      SameTrack(Tracks(from), c, run.(done := Plus(run.done, OfOutcome(o))), WithOutcome(c, o), AfterOutcome(run, o));
    case Skipped(reason) =>
      TracksSkip(from, c, run, reason);
      YieldsNothing(run, o);
      SameTrack(Tracks(from), WithSkip(c, reason), run.(done := Plus(run.done, OfOutcome(o))), WithOutcome(c, o),
                AfterOutcome(run, o));
    case Taken(_, _) =>
      TracksFile(from, c, run, o);
  }

  lemma TracksFile(from: Coverage, c: Coverage, run: Run, o: Outcome)
    requires Tracks(from)(c, run) && o.Taken?
    ensures Tracks(from)(WithOutcome(c, o), AfterOutcome(run, o))
  {
    TracksTaken(from, c, run, o.path, o.data, WithOutcome(c, o), AfterOutcome(run, o));
  }

  lemma SameTrack(tracks: (Coverage, Run) -> bool, c: Coverage, run: Run, c': Coverage, run': Run)
    requires tracks(c, run) && c' == c && run' == run
    ensures tracks(c', run')
  {
  }

  // One entry: where it starts and where it leads.

  datatype EntryStart = EntryStart(coverage: Coverage, path: Path, entry: Entry, pending: Pending)

  datatype EntryEnd = EntryEnd(coverage: Coverage, pending: Pending, taken: seq<(Path, Bytes)>, stop: bool)

  ghost function EntryDone(judge: Judge, maxTotalBytes: nat): (EntryStart, EntryEnd) -> bool {
    (s: EntryStart, t: EntryEnd) =>
      var o := OutcomeOf(judge, s.path, s.entry);
      var c := s.coverage.(entries := s.coverage.entries + 1);
      && t.stop == (o.Taken? && c.bytes + |o.data| > maxTotalBytes)
      && t.taken == (if t.stop then [] else YieldOf(o))
      && t.coverage == (if t.stop then WithLimit(c, BYTE_BUDGET) else WithOutcome(c, o))
      && t.pending == s.pending + (if s.entry.node.Directory? then [(s.path + [s.entry.name], s.entry.node)] else [])
  }

  const ENTRY_BUDGET: string := "entry_budget"
  const BYTE_BUDGET: string := "total_byte_budget"

  /** What is done, what the rest of the directory holds and what is pending make up everything. */
  ghost function Balanced(judge: Judge, from: Coverage, all: Tally): (Coverage, Run, Path, seq<Entry>,
                                                                      Pending) -> bool {
    (c: Coverage, run: Run, path: Path, rest: seq<Entry>, pending: Pending) =>
      && Tracks(from)(c, run)
      && Plus(Plus(run.done, Sum(Weigher(judge, path), rest)), Sum(DirectoryWeigher(judge), pending)) == all
  }

  lemma MoveAcross(done: Tally, x: Tally, y: Tally, rest: Tally, pending: Tally)
    ensures var all := Plus(Plus(done, Plus(Plus(x, y), rest)), pending);
            && all == Plus(Plus(Plus(Plus(done, x), y), rest), pending)
            && all == Plus(Plus(Plus(done, x), rest), Plus(pending, y))
            && Part(Plus(done, x), all) && Part(Plus(Plus(done, x), y), all)
  {
    MoveIn(done, x, y, rest, pending);
    MoveOut(done, x, y, rest, pending);
    PartOfSum(Plus(done, x), Plus(rest, Plus(pending, y)));
    PartOfSum(Plus(Plus(done, x), y), Plus(rest, pending));
    PlusAssociates(Plus(done, x), rest, Plus(pending, y));
    PlusAssociates(Plus(Plus(done, x), y), rest, pending);
  }

  lemma MoveIn(done: Tally, x: Tally, y: Tally, rest: Tally, pending: Tally)
    ensures Plus(Plus(done, Plus(Plus(x, y), rest)), pending) == Plus(Plus(Plus(Plus(done, x), y), rest), pending)
  {
  }

  lemma MoveOut(done: Tally, x: Tally, y: Tally, rest: Tally, pending: Tally)
    ensures Plus(Plus(done, Plus(Plus(x, y), rest)), pending) == Plus(Plus(Plus(done, x), rest), Plus(pending, y))
  {
  }

  lemma SumOfNone<T>(weigh: T -> Tally)
    ensures Sum(weigh, []) == Zero()
  {
  }

  lemma SumOfOne<T>(weigh: T -> Tally, x: T)
    ensures Sum(weigh, [x]) == weigh(x)
  {
    assert [x][1..] == [];
  }

  function AfterEntry(run: Run, o: Outcome, stop: bool): Run {
    var done := Plus(run.done, OneEntry());
    if stop then Run(done, run.limits + multiset{BYTE_BUDGET}, run.yielded)
    else AfterOutcome(Run(done, run.limits, run.yielded), o)
  }

  lemma EntryCovers(judge: Judge, maxTotalBytes: nat, s: EntryStart, t: EntryEnd)
    requires EntryDone(judge, maxTotalBytes)(s, t)
    ensures var o, c := OutcomeOf(judge, s.path, s.entry), s.coverage.(entries := s.coverage.entries + 1);
            t.coverage == if t.stop then WithLimit(c, BYTE_BUDGET) else WithOutcome(c, o)
  {
  }

  lemma EntryTracked(judge: Judge, maxTotalBytes: nat, from: Coverage, run: Run, s: EntryStart, t: EntryEnd)
    requires Tracks(from)(s.coverage, run) && EntryDone(judge, maxTotalBytes)(s, t)
    ensures Tracks(from)(t.coverage, AfterEntry(run, OutcomeOf(judge, s.path, s.entry), t.stop))
  {
    EntryCovers(judge, maxTotalBytes, s, t);
    CountsAs(from, s.coverage, run, OutcomeOf(judge, s.path, s.entry), t.stop, t.coverage);
  }

  lemma CountsAs(from: Coverage, before: Coverage, run: Run, o: Outcome, stop: bool, after: Coverage)
    requires Tracks(from)(before, run)
    requires var c := before.(entries := before.entries + 1);
             after == if stop then WithLimit(c, BYTE_BUDGET) else WithOutcome(c, o)
    ensures Tracks(from)(after, AfterEntry(run, o, stop))
  {
    CountsEntry(from, before, run, o, stop);
  }

  lemma CountsEntry(from: Coverage, before: Coverage, run: Run, o: Outcome, stop: bool)
    requires Tracks(from)(before, run)
    ensures var c := before.(entries := before.entries + 1);
            Tracks(from)(if stop then WithLimit(c, BYTE_BUDGET) else WithOutcome(c, o), AfterEntry(run, o, stop))
  {
    TracksEntry(from, before, run);
    var c, examined := before.(entries := before.entries + 1), run.(done := Plus(run.done, OneEntry()));
    assert AfterEntry(run, o, stop) ==
      if stop then examined.(limits := examined.limits + multiset{BYTE_BUDGET}) else AfterOutcome(examined, o);
    if stop { TracksLimit(from, c, examined, BYTE_BUDGET); } else { TracksOutcome(from, c, examined, o); }
  }

  lemma EntryWeighs(judge: Judge, path: Path, e: Entry)
    ensures Weigher(judge, path)(e) ==
            Plus(OneEntry(), if e.node.Directory? then OfDirectory(judge, path + [e.name], e.node)
                 else OfOutcome(OutcomeOf(judge, path, e)))
  {
  }

  lemma EntryStep(judge: Judge, maxTotalBytes: nat, from: Coverage, all: Tally, run: Run, rest: seq<Entry>,
                  s: EntryStart, t: EntryEnd)
    requires Balanced(judge, from, all)(s.coverage, run, s.path, [s.entry] + rest, s.pending)
    requires EntryDone(judge, maxTotalBytes)(s, t) && !t.stop
    ensures Balanced(judge, from, all)(t.coverage, AfterEntry(run, OutcomeOf(judge, s.path, s.entry), false), s.path,
                                       rest, t.pending)
  {
    EntryTracked(judge, maxTotalBytes, from, run, s, t);
    EntryWeighs(judge, s.path, s.entry);
    var weigh, hold := Weigher(judge, s.path), DirectoryWeigher(judge);
    SumFirst(weigh, s.entry, rest);
    if s.entry.node.Directory? {
      var child := (s.path + [s.entry.name], s.entry.node);
      SumsJoin(hold, s.pending, [child]);
      SumOfOne(hold, child);
      MoveAcross(run.done, OneEntry(), hold(child), Sum(weigh, rest), Sum(hold, s.pending));
      assert Plus(Plus(run.done, OneEntry()), Zero()) == Plus(run.done, OneEntry());
    } else {
      MoveAcross(run.done, OneEntry(), OfOutcome(OutcomeOf(judge, s.path, s.entry)), Sum(weigh, rest),
                 Sum(hold, s.pending));
      assert s.pending + [] == s.pending;
    }
  }

  /** Some entries of a directory have been read since run: all up to rest, or with a stop in between. */
  ghost function Read(judge: Judge, from: Coverage, all: Tally, maxEntries: nat, maxTotalBytes: nat, run: Run):
    (Path, seq<Entry>, EntryEnd, Run) -> bool
  {
    (path: Path, rest: seq<Entry>, t: EntryEnd, after: Run) =>
      && Tracks(from)(t.coverage, after) && after.yielded == run.yielded + t.taken
      && t.coverage.bytes <= maxTotalBytes
      && if t.stop then
           && after.limits == run.limits + multiset{BYTE_BUDGET}
           && Part(after.done, all) && Over(from, all, maxEntries, maxTotalBytes)
         else
           && after.limits == run.limits
           && Balanced(judge, from, all)(t.coverage, after, path, rest, t.pending)
  }

  lemma SameRest(read: (Path, seq<Entry>, EntryEnd, Run) -> bool, path: Path, rest: seq<Entry>, rest': seq<Entry>,
                 t: EntryEnd, after: Run)
    requires read(path, rest, t, after) && rest' == rest
    ensures read(path, rest', t, after)
  {
  }

  /** The loop over the entries of a directory: the first i have been read. */
  ghost function Going(read: (Path, seq<Entry>, EntryEnd, Run) -> bool, path: Path, entries: seq<Entry>,
                       pending: Pending, start: nat):
    (nat, EntryEnd, Run) -> bool
  {
    (i: nat, t: EntryEnd, after: Run) =>
      && i <= |entries| && !t.stop && t.coverage.entries == start + i && AllDirectories(t.pending)
      && (i == 0 ==> t.pending == pending) && read(path, entries[i..], t, after)
  }

  lemma GoingStarts(read: (Path, seq<Entry>, EntryEnd, Run) -> bool, path: Path, entries: seq<Entry>,
                    pending: Pending, c: Coverage, run: Run)
    requires read(path, entries, EntryEnd(c, pending, [], false), run) && AllDirectories(pending)
    ensures Going(read, path, entries, pending, c.entries)(0, EntryEnd(c, pending, [], false), run)
  {
    SameRest(read, path, entries, entries[0..], EntryEnd(c, pending, [], false), run);
  }

  lemma GoingParts(read: (Path, seq<Entry>, EntryEnd, Run) -> bool, path: Path, entries: seq<Entry>, pending: Pending,
                   start: nat, i: nat, t: EntryEnd, after: Run)
    requires Going(read, path, entries, pending, start)(i, t, after)
    ensures i <= |entries| && t.coverage.entries == start + i && AllDirectories(t.pending)
            && read(path, entries[i..], t, after)
  {
  }

  lemma GoingOn(read: (Path, seq<Entry>, EntryEnd, Run) -> bool, path: Path, entries: seq<Entry>, pending: Pending,
                start: nat, i: nat, t: EntryEnd, after: Run)
    requires i < |entries| && !t.stop && t.coverage.entries == start + i + 1 && AllDirectories(t.pending)
    requires read(path, entries[i + 1..], t, after)
    ensures Going(read, path, entries, pending, start)(i + 1, t, after)
  {
  }

  lemma GoingEnds(read: (Path, seq<Entry>, EntryEnd, Run) -> bool, path: Path, entries: seq<Entry>, pending: Pending,
                  start: nat, t: EntryEnd, after: Run)
    requires Going(read, path, entries, pending, start)(|entries|, t, after)
    ensures t.coverage.entries == start + |entries| && AllDirectories(t.pending) && read(path, [], t, after)
    ensures entries == [] ==> t.pending == pending
  {
    SameRest(read, path, entries[|entries|..], [], t, after);
  }

  lemma ReadNothing(judge: Judge, from: Coverage, all: Tally, maxEntries: nat, maxTotalBytes: nat, run: Run,
                    c: Coverage, path: Path, rest: seq<Entry>, pending: Pending)
    requires Balanced(judge, from, all)(c, run, path, rest, pending) && c.bytes <= maxTotalBytes
    ensures Read(judge, from, all, maxEntries, maxTotalBytes, run)(path, rest, EntryEnd(c, pending, [], false), run)
  {
    assert run.yielded + [] == run.yielded;
  }

  lemma ReadOneMore(judge: Judge, from: Coverage, all: Tally, maxEntries: nat, maxTotalBytes: nat, run: Run, was: Run,
                    rest: seq<Entry>, taken: seq<(Path, Bytes)>, s: EntryStart, t: EntryEnd)
    requires Read(judge, from, all, maxEntries, maxTotalBytes, run)(
               s.path, [s.entry] + rest, EntryEnd(s.coverage, s.pending, taken, false), was)
    requires EntryDone(judge, maxTotalBytes)(s, t)
    ensures Read(judge, from, all, maxEntries, maxTotalBytes, run)(
              s.path, rest, t.(taken := taken + t.taken), AfterEntry(was, OutcomeOf(judge, s.path, s.entry), t.stop))
    ensures t.stop ==> t.taken == []
    ensures t.coverage.entries == s.coverage.entries + 1
  {
    EntryCounters(judge, maxTotalBytes, was, s, t);
    EntryTracked(judge, maxTotalBytes, from, was, s, t);
    var after := AfterEntry(was, OutcomeOf(judge, s.path, s.entry), t.stop);
    Appends(run.yielded, taken, t.taken);
    if t.stop {
      EntryStops(judge, maxEntries, maxTotalBytes, from, all, was, rest, s, t);
      ReadEnds(judge, from, all, maxEntries, maxTotalBytes, run, s.path, rest, t.(taken := taken + t.taken), after);
    } else {
      EntryStep(judge, maxTotalBytes, from, all, was, rest, s, t);
      ReadGoesOn(judge, from, all, maxEntries, maxTotalBytes, run, s.path, rest, t.(taken := taken + t.taken), after);
    }
  }

  lemma Appends<T>(a: seq<T>, b: seq<T>, c: seq<T>)
    ensures a + b + c == a + (b + c)
  {
  }

  lemma ReadEnds(judge: Judge, from: Coverage, all: Tally, maxEntries: nat, maxTotalBytes: nat, run: Run, path: Path,
                 rest: seq<Entry>, t: EntryEnd, after: Run)
    requires Tracks(from)(t.coverage, after) && after.yielded == run.yielded + t.taken
             && t.coverage.bytes <= maxTotalBytes
    requires t.stop && after.limits == run.limits + multiset{BYTE_BUDGET}
    requires Part(after.done, all) && Over(from, all, maxEntries, maxTotalBytes)
    ensures Read(judge, from, all, maxEntries, maxTotalBytes, run)(path, rest, t, after)
  {
  }

  lemma ReadGoesOn(judge: Judge, from: Coverage, all: Tally, maxEntries: nat, maxTotalBytes: nat, run: Run,
                   path: Path, rest: seq<Entry>, t: EntryEnd, after: Run)
    requires Tracks(from)(t.coverage, after) && after.yielded == run.yielded + t.taken
             && t.coverage.bytes <= maxTotalBytes
    requires !t.stop && after.limits == run.limits
    requires Balanced(judge, from, all)(t.coverage, after, path, rest, t.pending)
    ensures Read(judge, from, all, maxEntries, maxTotalBytes, run)(path, rest, t, after)
  {
  }

  /** A file that no longer fits is more than the byte budget has left. */
  lemma EntryStops(judge: Judge, maxEntries: nat, maxTotalBytes: nat, from: Coverage, all: Tally, run: Run,
                   rest: seq<Entry>, s: EntryStart, t: EntryEnd)
    requires Balanced(judge, from, all)(s.coverage, run, s.path, [s.entry] + rest, s.pending)
    requires EntryDone(judge, maxTotalBytes)(s, t) && t.stop
    ensures Part(AfterEntry(run, OutcomeOf(judge, s.path, s.entry), true).done, all)
            && Over(from, all, maxEntries, maxTotalBytes)
  {
    var o := OutcomeOf(judge, s.path, s.entry);
    TracksBytes(from, s.coverage, run);
    FilePart(judge, from, all, run, rest, s, o);
  }

  lemma FilePart(judge: Judge, from: Coverage, all: Tally, run: Run, rest: seq<Entry>, s: EntryStart, o: Outcome)
    requires Balanced(judge, from, all)(s.coverage, run, s.path, [s.entry] + rest, s.pending)
    requires o == OutcomeOf(judge, s.path, s.entry) && !s.entry.node.Directory?
    ensures Part(Plus(run.done, OneEntry()), all) && Part(Plus(Plus(run.done, OneEntry()), OfOutcome(o)), all)
  {
    EntryWeighs(judge, s.path, s.entry);
    var weigh, hold := Weigher(judge, s.path), DirectoryWeigher(judge);
    SumFirst(weigh, s.entry, rest);
    MoveAcross(run.done, OneEntry(), OfOutcome(o), Sum(weigh, rest), Sum(hold, s.pending));
  }

  /** The budgets are kept by every entry. */
  lemma EntryCounters(judge: Judge, maxTotalBytes: nat, run: Run, s: EntryStart, t: EntryEnd)
    requires EntryDone(judge, maxTotalBytes)(s, t) && s.coverage.bytes <= maxTotalBytes
    ensures t.coverage.bytes <= maxTotalBytes && t.coverage.entries == s.coverage.entries + 1
    ensures var after := AfterEntry(run, OutcomeOf(judge, s.path, s.entry), t.stop);
            && after.yielded == run.yielded + t.taken
            && after.limits == run.limits + (if t.stop then multiset{BYTE_BUDGET} else multiset{})
  {
    assert run.yielded + [] == run.yielded;
  }

  lemma TracksBytes(from: Coverage, c: Coverage, run: Run)
    requires Tracks(from)(c, run)
    ensures c.bytes == from.bytes + run.done.bytes && c.entries == from.entries + run.done.entries
  {
  }

  ghost predicate CutOff(limits: multiset<string>) {
    limits != multiset{} && limits <= multiset{ENTRY_BUDGET, BYTE_BUDGET}
  }

  /** Between directories: everything is done or pending, or a budget has run out. */
  ghost function Scanned(judge: Judge, from: Coverage, all: Tally, maxEntries: nat, maxTotalBytes: nat):
    (Coverage, Pending, bool, Run) -> bool
  {
    (c: Coverage, pending: Pending, stop: bool, run: Run) =>
      && Tracks(from)(c, run)
      && if stop then CutOff(run.limits) && Part(run.done, all) && Over(from, all, maxEntries, maxTotalBytes)
         else run.limits == multiset{} && Plus(run.done, Sum(DirectoryWeigher(judge), pending)) == all
  }

  /** The result of a scan: exactly what the tree holds if the budgets allow it, and otherwise a recorded limit. */
  ghost predicate Finished(from: Coverage, c: Coverage, all: Tally, yielded: seq<(Path, Bytes)>, maxEntries: nat,
                           maxTotalBytes: nat) {
    if Over(from, all, maxEntries, maxTotalBytes) then
      exists run: Run :: run.yielded == yielded && CutOff(run.limits) && Part(run.done, all) && Moved(from, c, run)
    else
      Moved(from, c, Run(all, multiset{}, yielded))
  }

  lemma ScanStarts(judge: Judge, from: Coverage, maxEntries: nat, maxTotalBytes: nat, path: Path, d: Node)
    ensures Scanned(judge, from, OfDirectory(judge, path, d), maxEntries, maxTotalBytes)(from, [(path, d)], false,
            Started())
  {
    TracksNothing(from);
    SumOfOne(DirectoryWeigher(judge), (path, d));
    PlusZero(OfDirectory(judge, path, d));
  }

  lemma ScanPops(judge: Judge, from: Coverage, all: Tally, maxEntries: nat, maxTotalBytes: nat, c: Coverage,
                 pending: Pending, run: Run, path: Path)
    requires Scanned(judge, from, all, maxEntries, maxTotalBytes)(c, pending, false, run)
    ensures run.limits == multiset{} && Balanced(judge, from, all)(c, run, path, [], pending)
  {
    assert Tracks(from)(c, run);
    SumOfNone(Weigher(judge, path));
    PlusZero(run.done);
  }

  lemma Regroup(done: Tally, x: Tally, pending: Tally)
    ensures Plus(Plus(done, Zero()), Plus(pending, x)) == Plus(Plus(done, x), pending)
  {
  }

  lemma ScanUnreadable(judge: Judge, from: Coverage, all: Tally, maxEntries: nat, maxTotalBytes: nat, c: Coverage,
                       run: Run, path: Path, d: Node, pending: Pending)
    requires Balanced(judge, from, all)(c, run, path, [], pending + [(path, d)]) && run.limits == multiset{}
             && d.Directory? && !d.readable
    ensures var o := Skipped("directory_read_error");
            Scanned(judge, from, all, maxEntries, maxTotalBytes)(
              WithSkip(c, o.reason), pending, false, Run(Plus(run.done, OfOutcome(o)), run.limits, run.yielded))
  {
    var hold := DirectoryWeigher(judge);
    SumOfNone(Weigher(judge, path));
    TracksSkip(from, c, run, "directory_read_error");
    SumsJoin(hold, pending, [(path, d)]);
    SumOfOne(hold, (path, d));
    Regroup(run.done, hold((path, d)), Sum(hold, pending));
  }

  lemma DirectoryOpens(judge: Judge, from: Coverage, all: Tally, c: Coverage, run: Run, path: Path, d: Node,
                       pending: Pending)
    requires Balanced(judge, from, all)(c, run, path, [], pending + [(path, d)]) && d.Directory? && d.readable
    ensures Balanced(judge, from, all)(c, run, path, d.entries, pending)
  {
    var hold := DirectoryWeigher(judge);
    SumOfNone(Weigher(judge, path));
    EntriesAreSum(judge, path, d.entries);
    SumsJoin(hold, pending, [(path, d)]);
    SumOfOne(hold, (path, d));
    Regroup(run.done, hold((path, d)), Sum(hold, pending));
  }

  lemma ScanWhole(judge: Judge, from: Coverage, all: Tally, c: Coverage, run: Run, path: Path, d: Node,
                  pending: Pending, fold: string -> string)
    requires Balanced(judge, from, all)(c, run, path, [], pending + [(path, d)]) && d.Directory? && d.readable
    ensures Balanced(judge, from, all)(c, run, path, Sorted(d.entries, fold), pending)
  {
    DirectoryOpens(judge, from, all, c, run, path, d, pending);
    SortedToo(judge, from, all, c, run, path, d.entries, pending, fold);
  }

  /** A directory with more entries than the budget has left: what can be reached is a part of everything. */
  lemma ScanTruncated(judge: Judge, from: Coverage, all: Tally, maxEntries: nat, maxTotalBytes: nat, c: Coverage,
                      run: Run, path: Path, d: Node, pending: Pending, fold: string -> string)
    returns (reach: Tally)
    requires Balanced(judge, from, all)(c, run, path, [], pending + [(path, d)]) && d.Directory? && d.readable
    requires c.entries <= maxEntries && maxEntries - c.entries < |d.entries|
    ensures Part(reach, all) && Over(from, all, maxEntries, maxTotalBytes)
    ensures Balanced(judge, from, reach)(
              WithLimit(c, ENTRY_BUDGET), run.(limits := run.limits + multiset{ENTRY_BUDGET}),
              path, Sorted(d.entries[..maxEntries - c.entries], fold), pending)
  {
    var k := maxEntries - c.entries;
    var kept, dropped := d.entries[..k], d.entries[k..];
    DirectoryOpens(judge, from, all, c, run, path, d, pending);
    TooMany(judge, from, all, maxEntries, maxTotalBytes, c, run, path, d.entries, pending);
    assert d.entries == kept + dropped;
    reach := Narrowed(judge, from, all, c, run, path, kept, dropped, pending);
    SortedToo(judge, from, reach, c, run, path, kept, pending, fold);
    LimitedToo(judge, from, reach, c, run, path, Sorted(kept, fold), pending);
  }

  lemma Narrowed(judge: Judge, from: Coverage, all: Tally, c: Coverage, run: Run, path: Path, kept: seq<Entry>,
                 dropped: seq<Entry>, pending: Pending) returns (reach: Tally)
    requires Balanced(judge, from, all)(c, run, path, kept + dropped, pending)
    ensures Part(reach, all) && Balanced(judge, from, reach)(c, run, path, kept, pending)
  {
    var weigh, hold := Weigher(judge, path), DirectoryWeigher(judge);
    reach := Plus(Plus(run.done, Sum(weigh, kept)), Sum(hold, pending));
    SumsJoin(weigh, kept, dropped);
    DropPart(run.done, Sum(weigh, kept), Sum(weigh, dropped), Sum(hold, pending));
  }

  lemma SortedToo(judge: Judge, from: Coverage, all: Tally, c: Coverage, run: Run, path: Path, entries: seq<Entry>,
                  pending: Pending, fold: string -> string)
    requires Balanced(judge, from, all)(c, run, path, entries, pending)
    ensures Balanced(judge, from, all)(c, run, path, Sorted(entries, fold), pending)
  {
    SortingKeeps(entries, fold, Weigher(judge, path));
  }

  lemma LimitedToo(judge: Judge, from: Coverage, all: Tally, c: Coverage, run: Run, path: Path, entries: seq<Entry>,
                   pending: Pending)
    requires Balanced(judge, from, all)(c, run, path, entries, pending)
    ensures Balanced(judge, from, all)(
              WithLimit(c, ENTRY_BUDGET), run.(limits := run.limits + multiset{ENTRY_BUDGET}), path, entries, pending)
  {
    TracksLimit(from, c, run, ENTRY_BUDGET);
  }

  lemma TooMany(judge: Judge, from: Coverage, all: Tally, maxEntries: nat, maxTotalBytes: nat, c: Coverage, run: Run,
                path: Path, entries: seq<Entry>, pending: Pending)
    requires Balanced(judge, from, all)(c, run, path, entries, pending) && c.entries + |entries| > maxEntries
    ensures Over(from, all, maxEntries, maxTotalBytes)
  {
    TracksBytes(from, c, run);
    EachWeighs(judge, path);
    EachCounted(Weigher(judge, path), entries);
  }

  lemma DropPart(done: Tally, kept: Tally, dropped: Tally, pending: Tally)
    ensures Part(Plus(Plus(done, kept), pending), Plus(Plus(done, Plus(kept, dropped)), pending))
  {
  }

  lemma EachWeighs(judge: Judge, path: Path)
    ensures forall e :: Weigher(judge, path)(e).entries >= 1
  {
    forall e ensures Weigher(judge, path)(e).entries >= 1 { EntryWeighs(judge, path, e); }
  }

  lemma PartTransitive(a: Tally, b: Tally, c: Tally)
    requires Part(b, c)
    ensures Part(a, b) ==> Part(a, c)
  {
  }

  lemma ScanClosed(judge: Judge, from: Coverage, all: Tally, reach: Tally, maxEntries: nat, maxTotalBytes: nat,
                   run: Run, path: Path, t: EntryEnd, after: Run, truncated: bool)
    requires Read(judge, from, reach, maxEntries, maxTotalBytes, run)(path, [], t, after)
    requires Part(reach, all) && (truncated ==> Over(from, all, maxEntries, maxTotalBytes))
             && (!truncated ==> reach == all)
    requires run.limits == if truncated then multiset{ENTRY_BUDGET} else multiset{}
    ensures Scanned(judge, from, all, maxEntries, maxTotalBytes)(t.coverage, t.pending, t.stop || truncated, after)
    ensures after.yielded == run.yielded + t.taken
  {
    assert Tracks(from)(t.coverage, after);
    if t.stop {
      assert BYTE_BUDGET in after.limits;
      assert CutOff(after.limits);
    } else {
      assert Balanced(judge, from, reach)(t.coverage, after, path, [], t.pending);
      SumOfNone(Weigher(judge, path));
      PlusZero(after.done);
      PartOfSum(after.done, Sum(DirectoryWeigher(judge), t.pending));
      if truncated {
        assert ENTRY_BUDGET in after.limits;
        assert CutOff(after.limits);
      } else {
        assert Plus(after.done, Sum(DirectoryWeigher(judge), t.pending)) == all;
      }
    }
    PartTransitive(after.done, reach, all);
  }

  lemma ScanFinishes(judge: Judge, from: Coverage, all: Tally, maxEntries: nat, maxTotalBytes: nat, c: Coverage,
                     pending: Pending, stop: bool, run: Run)
    requires Scanned(judge, from, all, maxEntries, maxTotalBytes)(c, pending, stop, run) && (pending == [] || stop)
    requires c.entries <= maxEntries && c.bytes <= maxTotalBytes
    ensures Finished(from, c.(status := StatusOf(c)), all, run.yielded, maxEntries, maxTotalBytes)
  {
    PlusZero(run.done);
    SumOfNone(DirectoryWeigher(judge));
    assert Tracks(from)(c, run);
    assert Moved(from, c, run);
    if !stop { assert run == Run(all, multiset{}, run.yielded); }
  }

  ghost predicate AllDirectories(pending: Pending) {
    forall i :: 0 <= i < |pending| ==> pending[i].1.Directory?
  }

  // ----- the order of the traversal -----

  /** What a traversal meets: an entry, or a directory that cannot be opened. */
  datatype Event = Examined(path: Path, entry: Entry) | Unopened(path: Path)

  ghost function EventsOf(path: Path, entries: seq<Entry>): (r: seq<Event>)
    ensures |r| == |entries| && forall i :: 0 <= i < |r| ==> r[i] == Examined(path, entries[i])
  {
    seq(|entries|, i requires 0 <= i < |entries| => Examined(path, entries[i]))
  }

  function DirectoryIn(path: Path, e: Entry): Pending {
    if e.node.Directory? then [(path + [e.name], e.node)] else []
  }

  ghost function DirectoriesIn(path: Path, entries: seq<Entry>): Pending {
    if entries == [] then []
    else DirectoriesIn(path, entries[..|entries| - 1]) + DirectoryIn(path, entries[|entries| - 1])
  }

  /**
   Everything met from a stack of directories on, with so many entries left: each directory in the order of its folded
   names, the last one found first, up to the one that holds more entries than are left.
   */
  ghost function Visits(fold: string -> string, pending: Pending, left: nat): seq<Event>
    decreases left, |pending|
  {
    if pending == [] then []
    else
      var (path, d), rest := pending[|pending| - 1], pending[..|pending| - 1];
      if !d.Directory? || !d.readable then [Unopened(path)] + Visits(fold, rest, left)
      else if |d.entries| > left then EventsOf(path, Sorted(d.entries[..left], fold))
      else
        var sorted := Sorted(d.entries, fold);
        assert d.entries == [] ==> DirectoriesIn(path, sorted) == [];
        EventsOf(path, sorted) + Visits(fold, rest + DirectoriesIn(path, sorted), left - |d.entries|)
  }

  function YieldAt(judge: Judge, v: Event): seq<(Path, Bytes)> {
    match v
    case Examined(path, e) => YieldOf(OutcomeOf(judge, path, e))
    case Unopened(_) => []
  }

  ghost function Joined<T, U>(f: T -> seq<U>, items: seq<T>): seq<U> {
    if items == [] then [] else Joined(f, items[..|items| - 1]) + f(items[|items| - 1])
  }

  lemma JoinedMore<T, U>(f: T -> seq<U>, items: seq<T>, x: T)
    ensures Joined(f, items + [x]) == Joined(f, items) + f(x)
  {
    assert (items + [x])[..|items|] == items;
  }

  lemma {:induction false} JoinedApart<T, U>(f: T -> seq<U>, a: seq<T>, b: seq<T>)
    ensures Joined(f, a + b) == Joined(f, a) + Joined(f, b)
    decreases |b|
  {
    if b == [] {
      assert a + b == a;
    } else {
      var rest, x := b[..|b| - 1], b[|b| - 1];
      JoinedApart(f, a, rest);
      assert a + b == a + rest + [x] && b == rest + [x];
      JoinedMore(f, a + rest, x);
      JoinedMore(f, rest, x);
    }
  }

  ghost function YieldsOf(judge: Judge, events: seq<Event>): seq<(Path, Bytes)> {
    Joined(v => YieldAt(judge, v), events)
  }

  ghost function SizeOf(files: seq<(Path, Bytes)>): nat {
    if files == [] then 0 else SizeOf(files[..|files| - 1]) + |files[|files| - 1].1|
  }

  /** The files of the first k events fit into the bytes that are left, and with the next one they would not. */
  ghost function FitsUpTo(judge: Judge, used: nat, maxTotalBytes: nat): (seq<Event>, seq<(Path, Bytes)>, nat) -> bool {
    (events: seq<Event>, yielded: seq<(Path, Bytes)>, k: nat) =>
      && k <= |events| && yielded == YieldsOf(judge, events[..k]) && used + SizeOf(yielded) <= maxTotalBytes
      && (k < |events| ==> used + SizeOf(yielded + YieldAt(judge, events[k])) > maxTotalBytes)
  }

  /** The files of the longest beginning of a traversal that fits into the bytes that are left, in its order. */
  ghost predicate LongestFit(judge: Judge, events: seq<Event>, used: nat, maxTotalBytes: nat,
                             yielded: seq<(Path, Bytes)>) {
    exists k: nat :: FitsUpTo(judge, used, maxTotalBytes)(events, yielded, k)
  }

  lemma YieldsJoin(judge: Judge, a: seq<Event>, b: seq<Event>)
    ensures YieldsOf(judge, a + b) == YieldsOf(judge, a) + YieldsOf(judge, b)
  {
    JoinedApart(v => YieldAt(judge, v), a, b);
  }

  lemma {:induction false} SizesJoin(a: seq<(Path, Bytes)>, b: seq<(Path, Bytes)>)
    ensures SizeOf(a + b) == SizeOf(a) + SizeOf(b)
    decreases |b|
  {
    if b == [] {
      assert a + b == a;
    } else {
      var n := |b| - 1;
      assert (a + b)[..|a| + n] == a + b[..n];
      SizesJoin(a, b[..n]);
    }
  }

  /** What has been yielded by the events met. */
  ghost function Yielding(judge: Judge): (seq<Event>, seq<(Path, Bytes)>) -> bool {
    (met: seq<Event>, yielded: seq<(Path, Bytes)>) => yielded == YieldsOf(judge, met)
  }

  ghost function Weighing(start: nat): (seq<(Path, Bytes)>, nat) -> bool {
    (yielded: seq<(Path, Bytes)>, bytes: nat) => bytes == start + SizeOf(yielded)
  }

  /** The first k entries of a directory have been read in their order. */
  ghost function InTurn(judge: Judge, path: Path, entries: seq<Entry>, pending: Pending, bytes: nat):
    (nat, Pending, seq<(Path, Bytes)>, nat) -> bool
  {
    (k: nat, next: Pending, taken: seq<(Path, Bytes)>, now: nat) =>
      && k <= |entries| && next == pending + DirectoriesIn(path, entries[..k])
      && Yielding(judge)(EventsOf(path, entries[..k]), taken) && Weighing(bytes)(taken, now)
  }

  /** One entry has been read. */
  ghost function TurnTaken(judge: Judge, path: Path, e: Entry, pending: Pending, bytes: nat):
    (Pending, seq<(Path, Bytes)>, nat) -> bool
  {
    (next: Pending, taken: seq<(Path, Bytes)>, now: nat) =>
      && next == pending + DirectoryIn(path, e) && taken == YieldOf(OutcomeOf(judge, path, e))
      && Weighing(bytes)(taken, now)
  }

  lemma TakesTurn(judge: Judge, maxTotalBytes: nat, s: EntryStart, t: EntryEnd)
    requires EntryDone(judge, maxTotalBytes)(s, t)
    ensures if t.stop then
              && t.taken == [] && t.coverage.bytes == s.coverage.bytes
              && NoRoom(judge, Examined(s.path, s.entry), t.coverage.bytes, maxTotalBytes)
            else
              TurnTaken(judge, s.path, s.entry, s.pending, s.coverage.bytes)(t.pending, t.taken, t.coverage.bytes)
  {
    var o := OutcomeOf(judge, s.path, s.entry);
    YieldWeighs(o);
    if !t.stop {
      assert t.pending == s.pending + DirectoryIn(s.path, s.entry) && t.taken == YieldOf(o);
      assert Weighing(s.coverage.bytes)(t.taken, t.coverage.bytes);
    }
  }

  lemma YieldWeighs(o: Outcome)
    ensures SizeOf(YieldOf(o)) == if o.Taken? then |o.data| else 0
  {
    if o.Taken? {
      assert [(o.path, o.data)][..0] == [];
    }
  }

  /** What comes next is a file that is too large for what is left. */
  ghost predicate NoRoom(judge: Judge, v: Event, bytes: nat, maxTotalBytes: nat) {
    bytes + SizeOf(YieldAt(judge, v)) > maxTotalBytes
  }

  lemma TurnStarts(judge: Judge, path: Path, entries: seq<Entry>, pending: Pending, bytes: nat)
    ensures InTurn(judge, path, entries, pending, bytes)(0, pending, [], bytes)
  {
    assert entries[..0] == [] && EventsOf(path, []) == [] && pending + [] == pending;
    assert Yielding(judge)(EventsOf(path, entries[..0]), []) && Weighing(bytes)([], bytes);
  }

  lemma EventsMore(path: Path, entries: seq<Entry>, k: nat)
    requires k < |entries|
    ensures EventsOf(path, entries[..k + 1]) == EventsOf(path, entries[..k]) + [Examined(path, entries[k])]
  {
  }

  lemma YieldsMore(judge: Judge, events: seq<Event>, v: Event)
    ensures YieldsOf(judge, events + [v]) == YieldsOf(judge, events) + YieldAt(judge, v)
  {
    JoinedMore(v => YieldAt(judge, v), events, v);
  }

  lemma DirectoriesMore(path: Path, entries: seq<Entry>, e: Entry)
    ensures DirectoriesIn(path, entries + [e]) == DirectoriesIn(path, entries) + DirectoryIn(path, e)
  {
    assert (entries + [e])[..|entries|] == entries;
  }

  lemma YieldingOne(judge: Judge, v: Event)
    ensures Yielding(judge)([v], YieldAt(judge, v))
  {
    assert [v] == [] + [v];
    YieldsMore(judge, [], v);
    assert [] + YieldAt(judge, v) == YieldAt(judge, v);
  }

  lemma TurnGoesOn(judge: Judge, path: Path, entries: seq<Entry>, pending: Pending, bytes: nat, k: nat, next: Pending,
                   taken: seq<(Path, Bytes)>, now: nat, next': Pending, more: seq<(Path, Bytes)>, now': nat)
    requires InTurn(judge, path, entries, pending, bytes)(k, next, taken, now) && k < |entries|
    requires TurnTaken(judge, path, entries[k], next, now)(next', more, now')
    ensures InTurn(judge, path, entries, pending, bytes)(k + 1, next', taken + more, now')
  {
    EventsMore(path, entries, k);
    YieldingOne(judge, Examined(path, entries[k]));
    YieldingMore(judge, bytes, EventsOf(path, entries[..k]), taken, now, [Examined(path, entries[k])], more, now');
    DirectoriesMore(path, entries[..k], entries[k]);
    assert entries[..k + 1] == entries[..k] + [entries[k]];
    Appends(pending, DirectoriesIn(path, entries[..k]), DirectoryIn(path, entries[k]));
  }

  /** What is met from these directories on, when so many entries have been read. */
  ghost function VisitsFrom(fold: string -> string, maxEntries: nat): (Pending, nat, seq<Event>) -> bool {
    (pending: Pending, entries: nat, visits: seq<Event>) =>
      entries <= maxEntries && visits == Visits(fold, pending, maxEntries - entries)
  }

  /** Nothing comes next, or a file that is too large for what is left. */
  ghost function Halts(judge: Judge, maxTotalBytes: nat): (seq<Event>, nat) -> bool {
    (later: seq<Event>, bytes: nat) => later == [] || NoRoom(judge, later[0], bytes, maxTotalBytes)
  }

  /** What a directory adds to the traversal: the events met, and those still to come. */
  ghost predicate Passed(judge: Judge, fold: string -> string, visits: seq<Event>, maxEntries: nat,
                         maxTotalBytes: nat, next: Pending, entries: nat, bytes: nat, stop: bool, met: seq<Event>,
                         later: seq<Event>) {
    && visits == met + later
    && if stop then Halts(judge, maxTotalBytes)(later, bytes) else VisitsFrom(fold, maxEntries)(next, entries, later)
  }

  lemma VisitsUnopened(fold: string -> string, all: Pending, pending: Pending, path: Path, d: Node, left: nat,
                       visits: seq<Event>, later: seq<Event>)
    requires all == pending + [(path, d)] && (!d.Directory? || !d.readable)
    requires visits == Visits(fold, all, left) && later == Visits(fold, pending, left)
    ensures visits == [Unopened(path)] + later
  {
    LastPending(pending, (path, d));
  }

  lemma VisitsCut(fold: string -> string, all: Pending, pending: Pending, path: Path, d: Node, left: nat,
                  visits: seq<Event>, sorted: seq<Entry>)
    requires all == pending + [(path, d)] && d.Directory? && d.readable && |d.entries| > left
    requires visits == Visits(fold, all, left) && sorted == Sorted(d.entries[..left], fold)
    ensures visits == EventsOf(path, sorted)
  {
    LastPending(pending, (path, d));
  }

  lemma VisitsWhole(fold: string -> string, all: Pending, pending: Pending, path: Path, d: Node, left: nat,
                    visits: seq<Event>, sorted: seq<Entry>, rest: Pending, left': nat, tail: seq<Event>)
    requires all == pending + [(path, d)] && d.Directory? && d.readable && left == |d.entries| + left'
    requires visits == Visits(fold, all, left) && sorted == Sorted(d.entries, fold)
    requires rest == pending + DirectoriesIn(path, sorted) && tail == Visits(fold, rest, left')
    ensures visits == EventsOf(path, sorted) + tail
  {
    LastPending(pending, (path, d));
  }

  lemma LastPending(pending: Pending, last: (Path, Node))
    ensures var all := pending + [last]; all != [] && all[|all| - 1] == last && all[..|all| - 1] == pending
  {
  }

  lemma UnopenedPassed(judge: Judge, fold: string -> string, pending: Pending, path: Path, d: Node,
                       visits: seq<Event>, maxEntries: nat, entries: nat) returns (later: seq<Event>)
    requires VisitsFrom(fold, maxEntries)(pending + [(path, d)], entries, visits) && d.Directory? && !d.readable
    ensures visits == [Unopened(path)] + later && VisitsFrom(fold, maxEntries)(pending, entries, later)
    ensures Yielding(judge)([Unopened(path)], [])
  {
    var left := maxEntries - entries;
    later := Visits(fold, pending, left);
    VisitsUnopened(fold, pending + [(path, d)], pending, path, d, left, visits, later);
    YieldingOne(judge, Unopened(path));
  }

  lemma VisitsAre(fold: string -> string, maxEntries: nat, pending: Pending, entries: nat, visits: seq<Event>,
                  left: nat)
    requires VisitsFrom(fold, maxEntries)(pending, entries, visits) && left == maxEntries - entries
    ensures visits == Visits(fold, pending, left)
  {
  }

  lemma StillVisits(fold: string -> string, maxEntries: nat, pending: Pending, entries: nat, visits: seq<Event>,
                    left: nat)
    requires entries + left == maxEntries && visits == Visits(fold, pending, left)
    ensures VisitsFrom(fold, maxEntries)(pending, entries, visits)
  {
  }

  lemma EventsSplit(path: Path, selected: seq<Entry>, k: nat, tail: seq<Event>, visits: seq<Event>)
    returns (met: seq<Event>, later: seq<Event>)
    requires k <= |selected| && visits == EventsOf(path, selected) + tail
    ensures met == EventsOf(path, selected[..k]) && visits == met + later
    ensures if k == |selected| then later == tail else later != [] && later[0] == Examined(path, selected[k])
  {
    met, later := EventsOf(path, selected[..k]), EventsOf(path, selected)[k..] + tail;
    assert EventsOf(path, selected) == met + EventsOf(path, selected)[k..];
    assert met + EventsOf(path, selected)[k..] + tail == met + later;
  }

  /** The selection from a directory, and how far it has been read: to the end, or to a file that is too large. */
  ghost function Turned(judge: Judge, path: Path, entries: seq<Entry>, pending: Pending, bytes: nat,
                        maxTotalBytes: nat): (nat, Pending, seq<(Path, Bytes)>, nat) -> bool {
    (k: nat, next: Pending, taken: seq<(Path, Bytes)>, now: nat) =>
      && k <= |entries|
      && Yielding(judge)(EventsOf(path, entries[..k]), taken) && Weighing(bytes)(taken, now)
      && (k < |entries| ==> NoRoom(judge, Examined(path, entries[k]), now, maxTotalBytes))
      && (k == |entries| ==> next == pending + DirectoriesIn(path, entries))
  }

  lemma TurnEnds(judge: Judge, path: Path, entries: seq<Entry>, pending: Pending, bytes: nat, maxTotalBytes: nat,
                 next: Pending, taken: seq<(Path, Bytes)>, now: nat)
    requires InTurn(judge, path, entries, pending, bytes)(|entries|, next, taken, now)
    ensures Turned(judge, path, entries, pending, bytes, maxTotalBytes)(|entries|, next, taken, now)
  {
    assert entries[..|entries|] == entries;
  }

  lemma TurnHalts(judge: Judge, path: Path, entries: seq<Entry>, pending: Pending, bytes: nat, maxTotalBytes: nat,
                  k: nat, next: Pending, taken: seq<(Path, Bytes)>, now: nat, next': Pending)
    requires InTurn(judge, path, entries, pending, bytes)(k, next, taken, now) && k < |entries|
    requires NoRoom(judge, Examined(path, entries[k]), now, maxTotalBytes)
    ensures Turned(judge, path, entries, pending, bytes, maxTotalBytes)(k, next', taken + [], now)
  {
    assert taken + [] == taken;
  }

  ghost function Selects(fold: string -> string, entries: seq<Entry>, left: nat): seq<Entry> -> bool {
    (selected: seq<Entry>) => selected == Sorted(if |entries| > left then entries[..left] else entries, fold)
  }

  lemma DirectoryPassed(judge: Judge, fold: string -> string, pending: Pending, path: Path, d: Node,
                        visits: seq<Event>, maxEntries: nat, maxTotalBytes: nat, before: nat, selected: seq<Entry>,
                        bytes: nat, k: nat, next: Pending, taken: seq<(Path, Bytes)>, entries: nat, now: nat)
    returns (met: seq<Event>, later: seq<Event>)
    requires VisitsFrom(fold, maxEntries)(pending + [(path, d)], before, visits) && d.Directory? && d.readable
    requires before <= maxEntries && Selects(fold, d.entries, maxEntries - before)(selected)
    requires Turned(judge, path, selected, pending, bytes, maxTotalBytes)(k, next, taken, now)
    requires k == |selected| && |d.entries| <= maxEntries - before ==> entries == before + |d.entries|
    ensures Yielding(judge)(met, taken) && Weighing(bytes)(taken, now)
    ensures k <= |selected|
    ensures Passed(judge, fold, visits, maxEntries, maxTotalBytes, next, entries, now,
                   k < |selected| || |d.entries| > maxEntries - before, met, later)
  {
    var left, all, rest := maxEntries - before, pending + [(path, d)], pending + DirectoriesIn(path, selected);
    VisitsAre(fold, maxEntries, all, before, visits, left);
    if |d.entries| > left {
      Selected(fold, d.entries, left, selected, d.entries[..left]);
      VisitsCut(fold, all, pending, path, d, left, visits, selected);
      met, later := CutPassed(judge, path, selected, pending, bytes, maxTotalBytes, k, next, taken, now, visits);
    } else {
      var left' := left - |d.entries|;
      var tail := Visits(fold, rest, left');
      Selected(fold, d.entries, left, selected, d.entries);
      VisitsWhole(fold, all, pending, path, d, left, visits, selected, rest, left', tail);
      StillVisits(fold, maxEntries, rest, before + |d.entries|, tail, left');
      met, later := WholePassed(judge, path, selected, pending, bytes, maxTotalBytes, k, next, taken, now, visits,
                                tail);
    }
  }

  lemma Selected(fold: string -> string, entries: seq<Entry>, left: nat, selected: seq<Entry>, kept: seq<Entry>)
    requires Selects(fold, entries, left)(selected) && kept == if |entries| > left then entries[..left] else entries
    ensures selected == Sorted(kept, fold)
  {
  }

  lemma CutPassed(judge: Judge, path: Path, selected: seq<Entry>, pending: Pending, bytes: nat, maxTotalBytes: nat,
                  k: nat, next: Pending, taken: seq<(Path, Bytes)>, now: nat, visits: seq<Event>)
    returns (met: seq<Event>, later: seq<Event>)
    requires Turned(judge, path, selected, pending, bytes, maxTotalBytes)(k, next, taken, now)
    requires visits == EventsOf(path, selected)
    ensures k <= |selected| && Yielding(judge)(met, taken) && Weighing(bytes)(taken, now)
    ensures visits == met + later && Halts(judge, maxTotalBytes)(later, now)
  {
    assert visits == EventsOf(path, selected) + [];
    met, later := EventsSplit(path, selected, k, [], visits);
  }

  lemma WholePassed(judge: Judge, path: Path, selected: seq<Entry>, pending: Pending, bytes: nat, maxTotalBytes: nat,
                    k: nat, next: Pending, taken: seq<(Path, Bytes)>, now: nat, visits: seq<Event>, tail: seq<Event>)
    returns (met: seq<Event>, later: seq<Event>)
    requires Turned(judge, path, selected, pending, bytes, maxTotalBytes)(k, next, taken, now)
    requires visits == EventsOf(path, selected) + tail
    ensures k <= |selected| && Yielding(judge)(met, taken) && Weighing(bytes)(taken, now)
    ensures visits == met + later
    ensures if k < |selected| then Halts(judge, maxTotalBytes)(later, now)
            else later == tail && next == pending + DirectoriesIn(path, selected)
  {
    met, later := EventsSplit(path, selected, k, tail, visits);
  }

  /** The traversal so far: what has been met and yielded, and what is still to come. */
  ghost predicate OnTheWay(judge: Judge, fold: string -> string, visits: seq<Event>, maxEntries: nat,
                           maxTotalBytes: nat, start: nat, next: Pending, entries: nat, bytes: nat, stop: bool,
                           yielded: seq<(Path, Bytes)>, met: seq<Event>, later: seq<Event>) {
    && Passed(judge, fold, visits, maxEntries, maxTotalBytes, next, entries, bytes, stop, met, later)
    && Yielding(judge)(met, yielded) && Weighing(start)(yielded, bytes)
  }

  lemma WayStarts(judge: Judge, fold: string -> string, pending: Pending, maxEntries: nat, maxTotalBytes: nat,
                  entries: nat, bytes: nat, visits: seq<Event>)
    requires entries <= maxEntries && visits == Visits(fold, pending, maxEntries - entries)
    ensures OnTheWay(judge, fold, visits, maxEntries, maxTotalBytes, bytes, pending, entries, bytes, false, [], [],
                     visits)
  {
    assert [] + visits == visits;
  }

  lemma YieldingMore(judge: Judge, start: nat, met: seq<Event>, yielded: seq<(Path, Bytes)>, bytes: nat,
                     more: seq<Event>, taken: seq<(Path, Bytes)>, bytes': nat)
    requires Yielding(judge)(met, yielded) && Weighing(start)(yielded, bytes)
    requires Yielding(judge)(more, taken) && Weighing(bytes)(taken, bytes')
    ensures Yielding(judge)(met + more, yielded + taken) && Weighing(start)(yielded + taken, bytes')
  {
    YieldsJoin(judge, met, more);
    SizesJoin(yielded, taken);
  }

  lemma WayGoesOn(judge: Judge, fold: string -> string, visits: seq<Event>, maxEntries: nat, maxTotalBytes: nat,
                  start: nat, pending: Pending, entries: nat, bytes: nat, yielded: seq<(Path, Bytes)>,
                  met: seq<Event>, later: seq<Event>, next: Pending, entries': nat, bytes': nat, stop: bool,
                  taken: seq<(Path, Bytes)>, more: seq<Event>, later': seq<Event>)
    requires OnTheWay(judge, fold, visits, maxEntries, maxTotalBytes, start, pending, entries, bytes, false, yielded,
                      met, later)
    requires Passed(judge, fold, later, maxEntries, maxTotalBytes, next, entries', bytes', stop, more, later')
    requires Yielding(judge)(more, taken) && Weighing(bytes)(taken, bytes')
    ensures OnTheWay(judge, fold, visits, maxEntries, maxTotalBytes, start, next, entries', bytes', stop,
                     yielded + taken, met + more, later')
  {
    YieldingMore(judge, start, met, yielded, bytes, more, taken, bytes');
    Appends(met, more, later');
  }

  lemma WayEnds(judge: Judge, fold: string -> string, visits: seq<Event>, maxEntries: nat, maxTotalBytes: nat,
                start: nat, pending: Pending, entries: nat, bytes: nat, stop: bool, yielded: seq<(Path, Bytes)>,
                met: seq<Event>, later: seq<Event>)
    requires OnTheWay(judge, fold, visits, maxEntries, maxTotalBytes, start, pending, entries, bytes, stop, yielded,
                      met, later)
    requires (pending == [] || stop) && bytes <= maxTotalBytes
    ensures start <= maxTotalBytes && FitsUpTo(judge, start, maxTotalBytes)(visits, yielded, |met|)
  {
    if !stop {
      assert Visits(fold, [], maxEntries - entries) == [];
    }
    assert later == [] || NoRoom(judge, later[0], bytes, maxTotalBytes);
    StopsAtLongest(judge, visits, maxTotalBytes, start, yielded, bytes, met, later);
  }

  lemma StopsAtLongest(judge: Judge, visits: seq<Event>, maxTotalBytes: nat, start: nat, yielded: seq<(Path, Bytes)>,
                       bytes: nat, met: seq<Event>, later: seq<Event>)
    requires visits == met + later && Yielding(judge)(met, yielded) && Weighing(start)(yielded, bytes)
    requires bytes <= maxTotalBytes && (later == [] || NoRoom(judge, later[0], bytes, maxTotalBytes))
    ensures start <= maxTotalBytes && FitsUpTo(judge, start, maxTotalBytes)(visits, yielded, |met|)
  {
    MetIsPrefix(met, later);
    if later != [] {
      SizesJoin(yielded, YieldAt(judge, later[0]));
    }
  }

  lemma MetIsPrefix(met: seq<Event>, later: seq<Event>)
    ensures (met + later)[..|met|] == met && (later != [] ==> (met + later)[|met|] == later[0])
  {
  }

  /** There is one longest beginning that fits, so what is yielded is determined. */
  lemma LongestFitIsUnique(judge: Judge, events: seq<Event>, used: nat, maxTotalBytes: nat, a: seq<(Path, Bytes)>,
                           b: seq<(Path, Bytes)>)
    requires LongestFit(judge, events, used, maxTotalBytes, a) && LongestFit(judge, events, used, maxTotalBytes, b)
    ensures a == b
  {
    var i: nat :| FitsUpTo(judge, used, maxTotalBytes)(events, a, i);
    var j: nat :| FitsUpTo(judge, used, maxTotalBytes)(events, b, j);
    NotShorter(judge, events, used, maxTotalBytes, a, i, b, j);
    NotShorter(judge, events, used, maxTotalBytes, b, j, a, i);
  }

  lemma NotShorter(judge: Judge, events: seq<Event>, used: nat, maxTotalBytes: nat, a: seq<(Path, Bytes)>, i: nat,
                   b: seq<(Path, Bytes)>, j: nat)
    requires FitsUpTo(judge, used, maxTotalBytes)(events, a, i) && FitsUpTo(judge, used, maxTotalBytes)(events, b, j)
    ensures i <= |events| && a == YieldsOf(judge, events[..i]) && i >= j
  {
    if i < j {
      MoreIsLarger(judge, events, i, j);
    }
  }

  lemma MoreIsLarger(judge: Judge, events: seq<Event>, i: nat, j: nat)
    requires i < j <= |events|
    ensures SizeOf(YieldsOf(judge, events[..i]) + YieldAt(judge, events[i])) <= SizeOf(YieldsOf(judge, events[..j]))
  {
    CutAround(events, i, j);
    YieldsGrow(judge, events[..i], events[i], events[i + 1..j]);
  }

  lemma CutAround(events: seq<Event>, i: nat, j: nat)
    requires i < j <= |events|
    ensures events[..j] == events[..i] + [events[i]] + events[i + 1..j]
  {
  }

  lemma YieldsGrow(judge: Judge, first: seq<Event>, v: Event, rest: seq<Event>)
    ensures SizeOf(YieldsOf(judge, first) + YieldAt(judge, v)) <= SizeOf(YieldsOf(judge, first + [v] + rest))
  {
    YieldsMore(judge, first, v);
    YieldsJoin(judge, first + [v], rest);
    SizesJoin(YieldsOf(judge, first + [v]), YieldsOf(judge, rest));
  }

  method BoundedSortedEntries(entries: seq<Entry>, remaining: nat, fold: string -> string)
    returns (selected: seq<Entry>, truncated: bool)
    ensures truncated <==> |entries| > remaining
    ensures var kept := if truncated then entries[..remaining] else entries; selected == Sorted(kept, fold)
  {
    selected, truncated := [], false;
    var i := 0;
    while i < |entries|
      invariant 0 <= i <= |entries|
      invariant !truncated && i <= remaining && selected == entries[..i]
    {
      if |selected| >= remaining {
        truncated := true;
        break;
      }
      selected := selected + [entries[i]];
      i := i + 1;
    }
    assert !truncated ==> entries[..i] == entries;
    selected := Sorted(selected, fold);
  }

  lemma {:induction false} SortedSize(entries: seq<Entry>, fold: string -> string)
    ensures |Sorted(entries, fold)| == |entries|
    decreases |entries|
  {
    if entries != [] {
      SortedSize(entries[1..], fold);
      InsertSize(entries[0], Sorted(entries[1..], fold), fold);
    }
  }

  lemma {:induction false} InsertSize(x: Entry, sorted: seq<Entry>, fold: string -> string)
    ensures |Insert(x, sorted, fold)| == |sorted| + 1
    decreases |sorted|
  {
    if sorted != [] { InsertSize(x, sorted[1..], fold); }
  }

  class SourceInventory {
    const maxEntries: nat
    const maxFileBytes: nat
    const maxTotalBytes: nat
    var coverage: Coverage

    constructor (maxEntries: nat, maxFileBytes: nat, maxTotalBytes: nat)
      ensures Valid() && coverage == Coverage(NotAnalyzed, 0, 0, 0, map[], map[], 0, false)
      ensures this.maxEntries == maxEntries && this.maxFileBytes == maxFileBytes && this.maxTotalBytes == maxTotalBytes
    {
      this.maxEntries, this.maxFileBytes, this.maxTotalBytes := maxEntries, maxFileBytes, maxTotalBytes;
      coverage := Coverage(NotAnalyzed, 0, 0, 0, map[], map[], 0, false);
    }

    /** The budgets hold, also over several roots. */
    ghost predicate Valid() reads this {
      coverage.entries <= maxEntries && coverage.bytes <= maxTotalBytes
    }

    method RecordSkip(reason: string)
      modifies this
      ensures coverage == WithSkip(old(coverage), reason)
    {
      coverage := coverage.(
        skipped := coverage.skipped + 1,
        skipReasons := coverage.skipReasons[reason := Count(coverage.skipReasons, reason) + 1]);
    }

    method RecordLimit(reason: string)
      modifies this
      ensures coverage == WithLimit(old(coverage), reason)
    {
      coverage := coverage.(limitsReached := true);
      coverage := coverage.(limitReasons := coverage.limitReasons[reason := Count(coverage.limitReasons, reason) + 1]);
    }

    /** One entry that is neither a link nor a directory. */
    method ReadFile(path: Path, node: Node, matches: Path -> bool, filter: Path -> Verdict)
      returns (taken: seq<(Path, Bytes)>, stop: bool)
      requires node.File?
      modifies this
      ensures taken == [(path, node.data)] <==>
              && matches(path) && filter(path) == Accepts && node.readable && node.regular
              && |node.data| <= maxFileBytes && old(coverage.bytes) + |node.data| <= maxTotalBytes
      ensures taken != [] ==> taken == [(path, node.data)]
      ensures var outcome := ReadJudge(matches, filter, maxFileBytes)(path, node);
              && stop == (outcome.Taken? && old(coverage.bytes) + |outcome.data| > maxTotalBytes)
              && taken == (if stop then [] else YieldOf(outcome))
              && coverage == (if stop then WithLimit(old(coverage), BYTE_BUDGET)
                              else WithOutcome(old(coverage), outcome))
    {
      taken, stop := [], false;
      if !matches(path) || filter(path) == Rejects {
      } else if filter(path) == Fails {
        RecordSkip("path_filter_error");
      } else if !node.readable {
        RecordSkip("unreadable_or_raced_file");
      } else if !node.regular || |node.data| > maxFileBytes {
        RecordSkip(if !node.regular then "non_regular_or_file_size_limit" else "file_size_limit");
      } else if coverage.bytes + |node.data| > maxTotalBytes {
        RecordLimit(BYTE_BUDGET);
        stop := true;
      } else {
        coverage := coverage.(files := coverage.files + 1);
        coverage := coverage.(bytes := coverage.bytes + |node.data|);
        taken := [(path, node.data)];
      }
    }

    /** One examined entry of the directory at path. */
    method ReadEntry(path: Path, e: Entry, pending: Pending, matches: Path -> bool, filter: Path -> Verdict)
      returns (next: Pending, taken: seq<(Path, Bytes)>, stop: bool)
      modifies this
      ensures AllDirectories(pending) ==> AllDirectories(next)
      ensures EntryDone(ReadJudge(matches, filter, maxFileBytes), maxTotalBytes)(
                EntryStart(old(coverage), path, e, pending), EntryEnd(coverage, next, taken, stop))
    {
      next, taken, stop := pending, [], false;
      assert pending + [] == pending;
      coverage := coverage.(entries := coverage.entries + 1);
      var child := path + [e.name];
      if e.node.Symlink? {
        RecordSkip("symlink_entry");
      } else if e.node.Directory? {
        next := pending + [(child, e.node)];
      } else {
        taken, stop := ReadFile(child, e.node, matches, filter);
      }
      ghost var o := OutcomeOf(ReadJudge(matches, filter, maxFileBytes), path, e);
      ghost var c := old(coverage).(entries := old(coverage).entries + 1);
      assert stop == (o.Taken? && c.bytes + |o.data| > maxTotalBytes);
      assert taken == if stop then [] else YieldOf(o);
      assert coverage == (if stop then WithLimit(c, BYTE_BUDGET) else WithOutcome(c, o));
      assert next == pending + (if e.node.Directory? then [(path + [e.name], e.node)] else []);
    }

    method ReadNext(path: Path, entries: seq<Entry>, i: nat, pending: Pending, matches: Path -> bool,
                    filter: Path -> Verdict, ghost before: seq<(Path, Bytes)>, ghost was: Run, ghost from: Coverage,
                    ghost all: Tally, ghost run: Run)
      returns (next: Pending, taken: seq<(Path, Bytes)>, stop: bool, ghost after: Run)
      requires Valid() && coverage.entries < maxEntries && AllDirectories(pending) && i < |entries|
      requires Read(ReadJudge(matches, filter, maxFileBytes), from, all, maxEntries, maxTotalBytes, run)(
                 path, entries[i..], EntryEnd(coverage, pending, before, false), was)
      modifies this
      ensures Valid() && coverage.entries == old(coverage.entries) + 1 && AllDirectories(next)
      ensures Read(ReadJudge(matches, filter, maxFileBytes), from, all, maxEntries, maxTotalBytes, run)(
                path, if stop then [] else entries[i + 1..], EntryEnd(coverage, next, before + taken, stop), after)
      ensures if stop then
                && taken == [] && coverage.bytes == old(coverage.bytes)
                && NoRoom(ReadJudge(matches, filter, maxFileBytes), Examined(path, entries[i]), coverage.bytes,
                          maxTotalBytes)
              else
                TurnTaken(ReadJudge(matches, filter, maxFileBytes), path, entries[i], pending, old(coverage.bytes))(
                  next, taken, coverage.bytes)
    {
      var e := entries[i];
      ghost var rest := entries[i + 1..];
      ghost var judge, s := ReadJudge(matches, filter, maxFileBytes), EntryStart(coverage, path, e, pending);
      TailFirst(entries, i);
      SameRest(Read(judge, from, all, maxEntries, maxTotalBytes, run), path, entries[i..], [e] + rest,
               EntryEnd(coverage, pending, before, false), was);
      next, taken, stop := ReadEntry(path, e, pending, matches, filter);
      ghost var t := EntryEnd(coverage, next, taken, stop);
      TakesTurn(judge, maxTotalBytes, s, t);
      after := AfterEntry(was, OutcomeOf(judge, path, e), stop);
      ReadOneMore(judge, from, all, maxEntries, maxTotalBytes, run, was, rest, before, s, t);
      ReadKeepsBudget(judge, from, all, maxEntries, maxTotalBytes, run, path, rest, t.(taken := before + taken), after);
    }

    /** The entries of one directory, already selected and sorted. */
    method ReadEntries(path: Path, entries: seq<Entry>, pending: Pending, matches: Path -> bool,
                       filter: Path -> Verdict, ghost from: Coverage, ghost all: Tally, ghost run: Run)
      returns (next: Pending, taken: seq<(Path, Bytes)>, stop: bool, ghost after: Run, ghost k: nat)
      requires Valid() && coverage.entries + |entries| <= maxEntries && AllDirectories(pending)
      requires Balanced(ReadJudge(matches, filter, maxFileBytes), from, all)(coverage, run, path, entries, pending)
      modifies this
      ensures Valid() && AllDirectories(next) && old(coverage.entries) <= coverage.entries <= old(coverage.entries)
              + |entries|
      ensures if entries == [] then next == pending else coverage.entries > old(coverage.entries)
      ensures Read(ReadJudge(matches, filter, maxFileBytes), from, all, maxEntries, maxTotalBytes, run)(
                path, [], EntryEnd(coverage, next, taken, stop), after)
      ensures Turned(ReadJudge(matches, filter, maxFileBytes), path, entries, pending, old(coverage.bytes),
                     maxTotalBytes)(
                k, next, taken, coverage.bytes)
      ensures k <= |entries| && (stop <==> k < |entries|)
      ensures !stop ==> coverage.entries == old(coverage.entries) + |entries|
    {
      next, taken, stop, after, k := pending, [], false, run, 0;
      ghost var judge := ReadJudge(matches, filter, maxFileBytes);
      ghost var read := Read(judge, from, all, maxEntries, maxTotalBytes, run);
      ghost var going := Going(read, path, entries, pending, coverage.entries);
      ghost var turn := InTurn(judge, path, entries, pending, coverage.bytes);
      ReadNothing(judge, from, all, maxEntries, maxTotalBytes, run, coverage, path, entries, pending);
      GoingStarts(read, path, entries, pending, coverage, run);
      TurnStarts(judge, path, entries, pending, coverage.bytes);
      for i := 0 to |entries|
        invariant Valid() && !stop && going(i, EntryEnd(coverage, next, taken, false), after)
        invariant turn(i, next, taken, coverage.bytes)
      {
        GoingParts(read, path, entries, pending, old(coverage.entries), i, EntryEnd(coverage, next, taken, false),
                   after);
        ghost var was, bytes, earlier := next, coverage.bytes, taken;
        var more;
        next, more, stop, after := ReadNext(path, entries, i, next, matches, filter, taken, after, from, all, run);
        taken := taken + more;
        k := i;
        if stop {
          TurnHalts(judge, path, entries, pending, old(coverage.bytes), maxTotalBytes, i, was, earlier, bytes, next);
          return;
        }
        GoingOn(read, path, entries, pending, old(coverage.entries), i, EntryEnd(coverage, next, taken, false), after);
        TurnGoesOn(judge, path, entries, pending, old(coverage.bytes), i, was, earlier, bytes, next, more,
                   coverage.bytes);
      }
      GoingEnds(read, path, entries, pending, old(coverage.entries), EntryEnd(coverage, next, taken, false), after);
      TurnEnds(judge, path, entries, pending, old(coverage.bytes), maxTotalBytes, next, taken, coverage.bytes);
      k := |entries|;
    }

    /** The entries of a directory that are looked at, sorted; the rest is cut off by the entry budget. */
    method Select(path: Path, d: Node, fold: string -> string, ghost pending: Pending, ghost judge: Judge,
                  ghost from: Coverage, ghost all: Tally, ghost run: Run)
      returns (selected: seq<Entry>, truncated: bool, ghost reach: Tally, ghost begun: Run)
      requires Valid() && d.Directory? && d.readable && run.limits == multiset{}
      requires Balanced(judge, from, all)(coverage, run, path, [],
               pending + [(path, d)])
      modifies this
      ensures coverage == if truncated then WithLimit(old(coverage), ENTRY_BUDGET) else old(coverage)
      ensures truncated <==> |d.entries| > maxEntries - coverage.entries
      ensures Selects(fold, d.entries, maxEntries - coverage.entries)(selected)
      ensures |selected| == if truncated then maxEntries - coverage.entries else |d.entries|
      ensures Balanced(judge, from, reach)(coverage, begun, path, selected, pending)
      ensures Part(reach, all) && (truncated ==> Over(from, all, maxEntries, maxTotalBytes))
              && (!truncated ==> reach == all)
      ensures begun.limits == (if truncated then multiset{ENTRY_BUDGET} else multiset{})
              && begun.yielded == run.yielded
    {
      selected, truncated := BoundedSortedEntries(d.entries, maxEntries - coverage.entries, fold);
      reach, begun := all, run;
      if truncated {
        SortedSize(d.entries[..maxEntries - coverage.entries], fold);
        reach := ScanTruncated(judge, from, all, maxEntries, maxTotalBytes, coverage, run, path, d, pending, fold);
        RecordLimit(ENTRY_BUDGET);
        begun := run.(limits := run.limits + multiset{ENTRY_BUDGET});
      } else {
        SortedSize(d.entries, fold);
        ScanWhole(judge, from, all, coverage, run, path, d, pending, fold);
      }
    }

    method ReadDirectory(path: Path, d: Node, pending: Pending, matches: Path -> bool, filter: Path -> Verdict,
                         fold: string -> string, ghost from: Coverage, ghost all: Tally, ghost run: Run,
                         ghost visits: seq<Event>)
      returns (next: Pending, taken: seq<(Path, Bytes)>, stop: bool, ghost after: Run, ghost met: seq<Event>,
               ghost later: seq<Event>)
      requires Valid() && d.Directory? && AllDirectories(pending) && run.limits == multiset{}
      requires Balanced(ReadJudge(matches, filter, maxFileBytes), from, all)(coverage, run, path, [],
               pending + [(path, d)])
      requires VisitsFrom(fold, maxEntries)(pending + [(path, d)], coverage.entries, visits)
      modifies this
      ensures Valid() && AllDirectories(next) && coverage.entries >= old(coverage.entries)
      ensures stop || coverage.entries > old(coverage.entries) || next == pending
      ensures after.yielded == run.yielded + taken
      ensures Scanned(ReadJudge(matches, filter, maxFileBytes), from, all, maxEntries, maxTotalBytes)(coverage, next,
              stop, after)
      ensures Passed(ReadJudge(matches, filter, maxFileBytes), fold, visits, maxEntries, maxTotalBytes, next,
                     coverage.entries, coverage.bytes, stop, met, later)
      ensures Yielding(ReadJudge(matches, filter, maxFileBytes))(met, taken)
      ensures Weighing(old(coverage.bytes))(taken, coverage.bytes)
    {
      ghost var judge := ReadJudge(matches, filter, maxFileBytes);
      if !d.readable {
        later := UnopenedPassed(judge, fold, pending, path, d, visits, maxEntries, coverage.entries);
        ScanUnreadable(judge, from, all, maxEntries, maxTotalBytes, coverage, run, path, d, pending);
        RecordSkip("directory_read_error");
        after := Run(Plus(run.done, OfOutcome(Skipped("directory_read_error"))), run.limits, run.yielded);
        assert run.yielded + [] == run.yielded;
        return pending, [], false, after, [Unopened(path)], later;
      }
      var selected, truncated;
      ghost var reach, begun;
      selected, truncated, reach, begun := Select(path, d, fold, pending, judge, from, all, run);
      ghost var k;
      next, taken, stop, after, k := ReadEntries(path, selected, pending, matches, filter, from, reach, begun);
      met, later := DirectoryPassed(judge, fold, pending, path, d, visits, maxEntries, maxTotalBytes,
                                    old(coverage.entries), selected, old(coverage.bytes), k, next, taken,
                                    coverage.entries, coverage.bytes);
      ScanClosed(judge, from, all, reach, maxEntries, maxTotalBytes, begun, path,
                 EntryEnd(coverage, next, taken, stop), after, truncated);
      if selected == [] && !truncated { assert d.entries == []; }
      stop := stop || truncated;
    }

    /** The last pending directory of a traversal. */
    method ReadOn(pending: Pending, matches: Path -> bool, filter: Path -> Verdict, fold: string -> string,
                  ghost from: Coverage, ghost all: Tally, ghost run: Run, ghost visits: seq<Event>,
                  ghost yielded: seq<(Path, Bytes)>, ghost met: seq<Event>, ghost later: seq<Event>)
      returns (next: Pending, taken: seq<(Path, Bytes)>, stop: bool, ghost after: Run, ghost met': seq<Event>,
               ghost later': seq<Event>)
      requires Valid() && pending != [] && AllDirectories(pending)
      requires Scanned(ReadJudge(matches, filter, maxFileBytes), from, all, maxEntries, maxTotalBytes)(
                 coverage, pending, false, run)
      requires OnTheWay(ReadJudge(matches, filter, maxFileBytes), fold, visits, maxEntries, maxTotalBytes, from.bytes,
                        pending, coverage.entries, coverage.bytes, false, yielded, met, later)
      modifies this
      ensures Valid() && AllDirectories(next) && coverage.entries >= old(coverage.entries)
      ensures stop || coverage.entries > old(coverage.entries) || |next| < |pending|
      ensures after.yielded == run.yielded + taken
      ensures Scanned(ReadJudge(matches, filter, maxFileBytes), from, all, maxEntries, maxTotalBytes)(
                coverage, next, stop, after)
      ensures OnTheWay(ReadJudge(matches, filter, maxFileBytes), fold, visits, maxEntries, maxTotalBytes, from.bytes,
                       next, coverage.entries, coverage.bytes, stop, yielded + taken, met', later')
    {
      var current, others := pending[|pending| - 1], pending[..|pending| - 1];
      assert pending == others + [current] && current == (current.0, current.1);
      ghost var judge, entries, bytes, more := ReadJudge(matches, filter, maxFileBytes), coverage.entries,
          coverage.bytes, met;
      ScanPops(judge, from, all, maxEntries, maxTotalBytes, coverage, pending, run, current.0);
      next, taken, stop, after, more, later' := ReadDirectory(current.0, current.1, others, matches, filter, fold, from,
                                                              all, run, later);
      WayGoesOn(judge, fold, visits, maxEntries, maxTotalBytes, from.bytes, pending, entries, bytes, yielded, met,
                later,
                next, coverage.entries, coverage.bytes, stop, taken, more, later');
      met' := met + more;
    }

    /** The traversal from the root on, until nothing is pending or a budget has run out. */
    method ReadPending(rootPath: Path, root: Node, matches: Path -> bool, filter: Path -> Verdict,
                       fold: string -> string, ghost from: Coverage, ghost all: Tally, ghost visits: seq<Event>)
      returns (yielded: seq<(Path, Bytes)>, ghost k: nat)
      requires Valid() && root.Directory?
      requires Scanned(ReadJudge(matches, filter, maxFileBytes), from, all, maxEntries, maxTotalBytes)(
                 coverage, [(rootPath, root)], false, Started())
      requires OnTheWay(ReadJudge(matches, filter, maxFileBytes), fold, visits, maxEntries, maxTotalBytes, from.bytes,
                        [(rootPath, root)], coverage.entries, coverage.bytes, false, [], [], visits)
      modifies this
      ensures Valid()
      ensures Finished(from, coverage.(status := StatusOf(coverage)), all, yielded, maxEntries, maxTotalBytes)
      ensures FitsUpTo(ReadJudge(matches, filter, maxFileBytes), from.bytes, maxTotalBytes)(visits, yielded, k)
    {
      ghost var judge, run, met, later := ReadJudge(matches, filter, maxFileBytes), Started(), [], visits;
      var pending, stop := [(rootPath, root)], false;
      yielded := [];
      while pending != [] && !stop
        invariant Valid() && AllDirectories(pending) && run.yielded == yielded
        invariant Scanned(judge, from, all, maxEntries, maxTotalBytes)(coverage, pending, stop, run)
        invariant OnTheWay(judge, fold, visits, maxEntries, maxTotalBytes, from.bytes,
                           pending, coverage.entries, coverage.bytes, stop, yielded, met, later)
        decreases !stop, maxEntries - coverage.entries, |pending|
      {
        var taken;
        pending, taken, stop, run, met, later := ReadOn(pending, matches, filter, fold, from, all, run, visits, yielded,
                                                        met, later);
        yielded := yielded + taken;
      }
      ScanFinishes(judge, from, all, maxEntries, maxTotalBytes, coverage, pending, stop, run);
      WayEnds(judge, fold, visits, maxEntries, maxTotalBytes, from.bytes, pending, coverage.entries, coverage.bytes,
              stop, yielded, met, later);
      k := |met|;
    }

    /** Reads every selected regular file below the root, as far as the budgets go. */
    method ReadTree(rootPath: Path, root: Option<Node>, matches: Path -> bool, filter: Path -> Verdict,
                    fold: string -> string)
      returns (yielded: seq<(Path, Bytes)>)
      requires Valid()
      modifies this
      ensures Valid()
      ensures root.None? || !root.value.Directory? ==> yielded == [] && coverage == old(coverage)
      ensures root.Some? && root.value.Directory? ==>
                && coverage.status == StatusOf(coverage)
                && Finished(old(coverage), coverage, OfDirectory(ReadJudge(matches, filter, maxFileBytes), rootPath,
                                                                 root.value),
                            yielded, maxEntries, maxTotalBytes)
                && LongestFit(ReadJudge(matches, filter, maxFileBytes),
                              Visits(fold, [(rootPath, root.value)], maxEntries - old(coverage.entries)),
                              old(coverage.bytes), maxTotalBytes, yielded)
    {
      yielded := [];
      if root.None? || !root.value.Directory? {
        return;
      }
      ghost var judge, from := ReadJudge(matches, filter, maxFileBytes), coverage;
      ghost var all, start := OfDirectory(judge, rootPath, root.value), [(rootPath, root.value)];
      ghost var visits := Visits(fold, start, maxEntries - coverage.entries);
      ScanStarts(judge, from, maxEntries, maxTotalBytes, rootPath, root.value);
      WayStarts(judge, fold, start, maxEntries, maxTotalBytes, coverage.entries, coverage.bytes, visits);
      ghost var k;
      yielded, k := ReadPending(rootPath, root.value, matches, filter, fold, from, all, visits);
      coverage := coverage.(status := StatusOf(coverage));
    }
  }

  lemma ReadKeepsBudget(judge: Judge, from: Coverage, all: Tally, maxEntries: nat, maxTotalBytes: nat, run: Run,
                        path: Path, rest: seq<Entry>, t: EntryEnd, after: Run)
    requires Read(judge, from, all, maxEntries, maxTotalBytes, run)(path, rest, t, after)
    ensures t.coverage.bytes <= maxTotalBytes
    ensures Read(judge, from, all, maxEntries, maxTotalBytes, run)(path, if t.stop then [] else rest, t, after)
  {
  }

  // ----- nothing is lost silently -----

  ghost predicate EntryLeads(e: Entry, rel: Path, n: Node)
    decreases |rel|, 0
  {
    rel != [] && rel[0] == e.name && if |rel| == 1 then e.node == n else Leads(e.node, rel[1..], n)
  }

  /** Following the names in rel from directory d leads to n. */
  ghost predicate Leads(d: Node, rel: Path, n: Node)
    decreases |rel|, 1
  {
    d.Directory? && d.readable && exists e :: e in d.entries && EntryLeads(e, rel, n)
  }

  /** What any node met on the way counts as. */
  function OutcomeAt(judge: Judge, p: Path, n: Node): Outcome {
    match n
    case Symlink => Skipped("symlink_entry")
    case Directory(readable, _) => if readable then Ignored else Skipped("directory_read_error")
    case File(_, _, _) => judge(p, n)
  }

  ghost predicate KeepsPath(judge: Judge) {
    forall p, n :: judge(p, n).Taken? ==> judge(p, n).path == p
  }

  lemma {:induction false} EntryCounted(judge: Judge, path: Path, entries: seq<Entry>, e: Entry)
    requires e in entries
    ensures Part(OfEntry(judge, path, e), OfEntries(judge, path, entries))
    decreases |entries|
  {
    if e != entries[0] {
      assert e in entries[1..];
      EntryCounted(judge, path, entries[1..], e);
    }
  }

  /** Everything that can be reached is accounted for. */
  lemma {:induction false} ReachedIsCounted(judge: Judge, path: Path, d: Node, rel: Path, n: Node)
    requires Leads(d, rel, n)
    ensures Part(OfOutcome(OutcomeAt(judge, path + rel, n)), OfDirectory(judge, path, d))
    decreases |rel|
  {
    var e :| e in d.entries && EntryLeads(e, rel, n);
    EntryCounted(judge, path, d.entries, e);
    var child := path + [e.name];
    var o := OfOutcome(OutcomeAt(judge, path + rel, n));
    if |rel| == 1 {
      assert path + rel == child;
      EntryIsCounted(judge, path, e);
    } else {
      assert path + rel == child + rel[1..];
      ReachedIsCounted(judge, child, e.node, rel[1..], n);
      PartOfSum(OneEntry(), OfDirectory(judge, child, e.node));
      PartTransitive(o, OfDirectory(judge, child, e.node), OfEntry(judge, path, e));
    }
    PartTransitive(o, OfEntry(judge, path, e), OfEntries(judge, path, d.entries));
  }

  lemma EntryIsCounted(judge: Judge, path: Path, e: Entry)
    ensures Part(OfOutcome(OutcomeAt(judge, path + [e.name], e.node)), OfEntry(judge, path, e))
  {
    var child := path + [e.name];
    PartOfSum(OneEntry(), if e.node.Directory? then OfDirectory(judge, child, e.node)
              else OfOutcome(OutcomeOf(judge, path, e)));
  }

  lemma {:induction false} SomeEntryHolds(judge: Judge, path: Path, entries: seq<Entry>, x: (Path, Bytes))
      returns (e: Entry)
    requires x in OfEntries(judge, path, entries).files
    ensures e in entries && x in OfEntry(judge, path, e).files
    decreases |entries|
  {
    if x in OfEntry(judge, path, entries[0]).files {
      e := entries[0];
    } else {
      e := SomeEntryHolds(judge, path, entries[1..], x);
    }
  }

  /** Every file of the tally can be reached. */
  lemma {:induction false} CountedIsReached(judge: Judge, path: Path, d: Node, x: (Path, Bytes))
      returns (rel: Path, n: Node)
    requires KeepsPath(judge) && x in OfDirectory(judge, path, d).files
    ensures Leads(d, rel, n) && n.File? && x.0 == path + rel && judge(x.0, n) == Taken(x.0, x.1)
    decreases d
  {
    var e := SomeEntryHolds(judge, path, d.entries, x);
    rel, n := EntryReached(judge, path, e, x);
    assert EntryLeads(e, rel, n);
  }

  lemma {:induction false} EntryReached(judge: Judge, path: Path, e: Entry, x: (Path, Bytes))
      returns (rel: Path, n: Node)
    requires KeepsPath(judge) && x in OfEntry(judge, path, e).files
    ensures EntryLeads(e, rel, n) && n.File? && x.0 == path + rel && judge(x.0, n) == Taken(x.0, x.1)
    decreases e
  {
    var child := path + [e.name];
    if e.node.Directory? {
      var below;
      below, n := CountedIsReached(judge, child, e.node, x);
      rel := [e.name] + below;
      assert rel[1..] == below && child + below == path + rel;
      assert below != [];
    } else {
      rel, n := [e.name], e.node;
    }
  }

  lemma EntryNamed(judge: Judge, path: Path, e: Entry, x: (Path, Bytes))
    requires KeepsPath(judge) && x in OfEntry(judge, path, e).files
    ensures |x.0| > |path| && x.0[|path|] == e.name
  {
    var rel, n := EntryReached(judge, path, e, x);
  }

  /** Names are distinct within each directory. */
  ghost predicate DistinctNames(d: Node)
    decreases d, 0
  {
    d.Directory? ==> DistinctEntries(d.entries)
  }

  ghost predicate DistinctEntries(entries: seq<Entry>)
    decreases entries, 0
  {
    entries != [] ==>
      && DistinctNames(entries[0].node) && DistinctEntries(entries[1..])
      && forall e :: e in entries[1..] ==> e.name != entries[0].name
  }

  lemma {:induction false} CountedOnce(judge: Judge, path: Path, d: Node, x: (Path, Bytes))
    requires KeepsPath(judge) && DistinctNames(d)
    ensures OfDirectory(judge, path, d).files[x] <= 1
    decreases d, 0
  {
    if d.Directory? && d.readable { CountedOnceIn(judge, path, d.entries, x); }
  }

  lemma {:induction false} CountedOnceIn(judge: Judge, path: Path, entries: seq<Entry>, x: (Path, Bytes))
    requires KeepsPath(judge) && DistinctEntries(entries)
    ensures OfEntries(judge, path, entries).files[x] <= 1
    decreases entries, 0
  {
    if entries != [] {
      var e := entries[0];
      CountedOnceIn(judge, path, entries[1..], x);
      if e.node.Directory? { CountedOnce(judge, path + [e.name], e.node, x); }
      OneOrTheOther(judge, path, e, entries[1..], x);
      FirstCounted(judge, path, entries, x);
    }
  }

  lemma FirstCounted(judge: Judge, path: Path, entries: seq<Entry>, x: (Path, Bytes))
    requires entries != []
    ensures OfEntries(judge, path, entries).files[x] ==
            OfEntry(judge, path, entries[0]).files[x] + OfEntries(judge, path, entries[1..]).files[x]
    ensures !entries[0].node.Directory? ==> OfEntry(judge, path, entries[0]).files[x] <= 1
    ensures entries[0].node.Directory? ==>
              OfEntry(judge, path, entries[0]).files[x] ==
              OfDirectory(judge, path + [entries[0].name], entries[0].node).files[x]
  {
  }

  lemma OneOrTheOther(judge: Judge, path: Path, e: Entry, rest: seq<Entry>, x: (Path, Bytes))
    requires KeepsPath(judge) && forall f :: f in rest ==> f.name != e.name
    ensures x !in OfEntry(judge, path, e).files || x !in OfEntries(judge, path, rest).files
  {
    if x in OfEntry(judge, path, e).files && x in OfEntries(judge, path, rest).files {
      var f := SomeEntryHolds(judge, path, rest, x);
      EntryNamed(judge, path, e, x);
      EntryNamed(judge, path, f, x);
      assert false;
    }
  }

  lemma ReadKeepsPath(matches: Path -> bool, filter: Path -> Verdict, maxFileBytes: nat)
    ensures KeepsPath(ReadJudge(matches, filter, maxFileBytes))
  {
  }

  /** A limit is recorded exactly when the tree is more than the budgets have left. */
  lemma LimitExactlyOver(from: Coverage, c: Coverage, all: Tally, yielded: seq<(Path, Bytes)>, maxEntries: nat,
                         maxTotalBytes: nat)
    requires Finished(from, c, all, yielded, maxEntries, maxTotalBytes)
    ensures c.limitsReached <==> from.limitsReached || Over(from, all, maxEntries, maxTotalBytes)
  {
  }

  /** Whatever happens, only files of the tree are yielded, and none more often than it is there. */
  lemma OnlyFilesOfTheTree(from: Coverage, c: Coverage, all: Tally, yielded: seq<(Path, Bytes)>, maxEntries: nat,
                           maxTotalBytes: nat)
    requires Finished(from, c, all, yielded, maxEntries, maxTotalBytes)
    ensures multiset(yielded) <= all.files
  {
  }

  /**
   When a scan ends without being partial, every selected file that can be reached has been yielded exactly once, no
   directory was left out, and nothing else was yielded.
   */
  lemma NothingIsLostSilently(from: Coverage, c: Coverage, path: Path, root: Node, yielded: seq<(Path, Bytes)>,
                              matches: Path -> bool, filter: Path -> Verdict, maxEntries: nat, maxFileBytes: nat,
                              maxTotalBytes: nat)
    requires root.Directory? && DistinctNames(root) && StatusOf(c) != Partial
    requires Finished(from, c, OfDirectory(ReadJudge(matches, filter, maxFileBytes), path, root), yielded,
                      maxEntries, maxTotalBytes)
    ensures forall rel, n :: Leads(root, rel, n) ==>
              && !n.Symlink? && (n.Directory? ==> n.readable)
              && (n.File? && matches(path + rel) && filter(path + rel) != Rejects ==>
                    multiset(yielded)[(path + rel, n.data)] == 1)
    ensures forall x :: x in yielded ==> exists rel, n ::
              Leads(root, rel, n) && n.File? && x == (path + rel, n.data) && matches(x.0) && filter(x.0) == Accepts
  {
    var judge := ReadJudge(matches, filter, maxFileBytes);
    var all := OfDirectory(judge, path, root);
    ReadKeepsPath(matches, filter, maxFileBytes);
    LimitExactlyOver(from, c, all, yielded, maxEntries, maxTotalBytes);
    assert |all.skips| == 0 && multiset(yielded) == all.files;
    forall rel, n | Leads(root, rel, n)
      ensures !n.Symlink? && (n.Directory? ==> n.readable)
      ensures n.File? && matches(path + rel) && filter(path + rel) != Rejects ==>
              multiset(yielded)[(path + rel, n.data)] == 1
    {
      NotLost(judge, path, root, rel, n);
    }
    forall x | x in yielded
      ensures exists rel, n ::
                  Leads(root, rel, n) && n.File? && x == (path + rel, n.data) && matches(x.0) && filter(x.0) == Accepts
    {
      assert x in multiset(yielded);
      var rel, n := CountedIsReached(judge, path, root, x);
    }
  }

  lemma NotLost(judge: Judge, path: Path, root: Node, rel: Path, n: Node)
    requires KeepsPath(judge) && DistinctNames(root) && Leads(root, rel, n)
             && |OfDirectory(judge, path, root).skips| == 0
    ensures !OutcomeAt(judge, path + rel, n).Skipped?
    ensures forall data :: OutcomeAt(judge, path + rel, n) == Taken(path + rel, data) ==>
                             OfDirectory(judge, path, root).files[(path + rel, data)] == 1
  {
    ReachedIsCounted(judge, path, root, rel, n);
    NotSkipped(judge, path + rel, n, OfDirectory(judge, path, root));
    forall data | OutcomeAt(judge, path + rel, n) == Taken(path + rel, data)
      ensures OfDirectory(judge, path, root).files[(path + rel, data)] == 1
    {
      CountedOnce(judge, path, root, (path + rel, data));
    }
  }

  lemma NotSkipped(judge: Judge, p: Path, n: Node, all: Tally)
    requires Part(OfOutcome(OutcomeAt(judge, p, n)), all) && |all.skips| == 0
    ensures !OutcomeAt(judge, p, n).Skipped?
    ensures forall q, data :: OutcomeAt(judge, p, n) == Taken(q, data) ==> all.files[(q, data)] >= 1
  {
    var o := OutcomeAt(judge, p, n);
    assert o.Skipped? ==> |OfOutcome(o).skips| == 1 && OfOutcome(o).skips <= all.skips;
    assert forall q, data :: o == Taken(q, data) ==> OfOutcome(o).files[(q, data)] == 1;
  }
}
