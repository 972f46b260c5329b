/** The stack walk and the counters of `summarize_samply_profile_symbols.py`. */
module ProfileSummary {
  import opened Text
  import SymbolIndex

  /** A function's `name` cell: an index into the strings, the text itself, or neither. */
  datatype NameCell = NoName | At(index: int) | Literal(text: string)

  /** A thread: the columns of its stack, frame, function and resource tables, its strings,
      and its samples' stack indices.  A cell that holds no integer is `None`; an address
      may also be written as text. */
  datatype Thread = Thread(
    name: string, frame: seq<Option<int>>, prefix: seq<Option<int>>,
    address: seq<Option<int>>, func: seq<Option<int>>,
    funcName: seq<NameCell>, funcResource: seq<Option<int>>, resourceLib: seq<Option<int>>,
    strings: seq<string>, stacks: seq<Option<int>>)

  /** What frames are named with: the code id of each library, empty where there is none, and the symbols. */
  datatype Debug = Debug(libs: seq<string>, symbols: seq<SymbolIndex.Symbol>)

  /** `table_get`. */
  function Cell(column: seq<Option<int>>, index: int): Option<int> {
    if 0 <= index < |column| then column[index] else None
  }

  // ----- the walk

  /** The row numbers of a table of `n` rows. */
  function RowNumbers(n: nat): (r: set<int>)
    ensures forall i :: i in r <==> 0 <= i < n
  {
    if n == 0 then {} else RowNumbers(n - 1) + {n - 1}
  }

  function Rows(t: Thread): set<int> { RowNumbers(|t.prefix|) }

  /** The stack entries the walk visits from `current` on, leaf first. */
  function Visited(t: Thread, current: Option<int>, seen: set<int>): seq<int>
    decreases Rows(t) - seen, if current.Some? then 1 else 0
  {
    if current.None? || current.value in seen then []
    else
      Shrinks(t, current.value, seen);
      [current.value] + Visited(t, Cell(t.prefix, current.value), seen + {current.value})
  }

  lemma Shrinks(t: Thread, i: int, seen: set<int>)
    requires i !in seen
    ensures if Cell(t.prefix, i).Some? then Rows(t) - (seen + {i}) < Rows(t) - seen else Rows(t) - (seen + {i}) <= Rows(t) - seen
  {
    if Cell(t.prefix, i).Some? {
      assert i in Rows(t) - seen && i !in Rows(t) - (seen + {i});
    }
  }

  function FrameOf(t: Thread, i: int): seq<int> {
    if Cell(t.frame, i).Some? then [Cell(t.frame, i).value] else []
  }

  function LeafToRoot(t: Thread, chain: seq<int>): seq<int> {
    if chain == [] then [] else FrameOf(t, chain[0]) + LeafToRoot(t, chain[1..])
  }

  function RootToLeaf(t: Thread, chain: seq<int>): seq<int> {
    if chain == [] then [] else RootToLeaf(t, chain[1..]) + FrameOf(t, chain[0])
  }

  /** One sequence is the other read backwards. */
  ghost predicate Mirrors(a: seq<int>, b: seq<int>) {
    |a| == |b| && forall i :: 0 <= i < |a| ==> a[i] == b[|a| - 1 - i]
  }

  lemma {:induction false} WalkMirrored(t: Thread, chain: seq<int>)
    ensures Mirrors(RootToLeaf(t, chain), LeafToRoot(t, chain))
  {
    if chain != [] {
      WalkMirrored(t, chain[1..]);
    }
  }

  /** `frames.reverse()`. */
  method Reverse(frames: seq<int>) returns (r: seq<int>)
    ensures Mirrors(r, frames)
  {
    r := [];
    for i := |frames| downto 0
      invariant |r| == |frames| - i
      invariant forall k :: 0 <= k < |r| ==> r[k] == frames[|frames| - 1 - k]
    {
      r := r + [frames[i]];
    }
  }

  method StackFrames(t: Thread, start: Option<int>) returns (frames: seq<int>)
    ensures frames == RootToLeaf(t, Visited(t, start, {}))
  {
    frames := [];
    var seen: set<int> := {};
    var current := start;
    while current.Some? && current.value !in seen
      invariant LeafToRoot(t, Visited(t, start, {})) == frames + LeafToRoot(t, Visited(t, current, seen))
      decreases Rows(t) - seen, if current.Some? then 1 else 0
    {
      var i := current.value;
      Shrinks(t, i, seen);
      VisitStep(t, i, seen);
      seen := seen + {i};
      frames := frames + FrameOf(t, i);
      current := Cell(t.prefix, i);
    }
    assert frames == LeafToRoot(t, Visited(t, start, {}));
    WalkMirrored(t, Visited(t, start, {}));
    frames := Reverse(frames);
  }

  lemma VisitStep(t: Thread, i: int, seen: set<int>)
    requires i !in seen
    ensures LeafToRoot(t, Visited(t, Some(i), seen))
         == FrameOf(t, i) + LeafToRoot(t, Visited(t, Cell(t.prefix, i), seen + {i}))
  {
    var rest := Visited(t, Cell(t.prefix, i), seen + {i});
    assert ([i] + rest)[1..] == rest;
  }

  // ----- what the walk visits

  ghost predicate Linked(t: Thread, chain: seq<int>) {
    forall i, j :: 0 <= i && j == i + 1 < |chain| ==> Cell(t.prefix, chain[i]) == Some(chain[j])
  }

  ghost predicate Distinct(chain: seq<int>) {
    forall i, j :: 0 <= i < j < |chain| ==> chain[i] != chain[j]
  }

  /** The walk follows the prefix column without visiting an entry twice, and stops only
      where the column ends or leads back into what it has visited. */
  lemma {:induction false} VisitedIsLongestChain(t: Thread, current: Option<int>, seen: set<int>)
    ensures var c := Visited(t, current, seen);
            && Linked(t, c) && Distinct(c)
            && (forall i :: 0 <= i < |c| ==> c[i] !in seen)
            && (c == [] <==> current.None? || current.value in seen)
            && (c != [] ==> Some(c[0]) == current)
            && (c != [] ==> var next := Cell(t.prefix, c[|c| - 1]); next.None? || next.value in seen || next.value in c)
    decreases Rows(t) - seen, if current.Some? then 1 else 0
  {
    if current.Some? && current.value !in seen {
      var i := current.value;
      Shrinks(t, i, seen);
      VisitedIsLongestChain(t, Cell(t.prefix, i), seen + {i});
      var rest := Visited(t, Cell(t.prefix, i), seen + {i});
      PrependKeepsChain(t, i, rest);
    }
  }

  lemma PrependKeepsChain(t: Thread, i: int, rest: seq<int>)
    requires Linked(t, rest) && Distinct(rest) && i !in rest
    requires rest != [] ==> Cell(t.prefix, i) == Some(rest[0])
    ensures Linked(t, [i] + rest) && Distinct([i] + rest)
    ensures forall k :: k in [i] + rest <==> k == i || k in rest
  {
    var c := [i] + rest;
    forall a, b | 0 <= a && b == a + 1 < |c| ensures Cell(t.prefix, c[a]) == Some(c[b]) {
      if a > 0 {
        assert c[a] == rest[a - 1] && c[b] == rest[b - 1];
      }
    }
  }

  /** Some entry leads back to itself. */
  ghost predicate Cyclic(t: Thread) {
    exists c :: c != [] && Linked(t, c) && Cell(t.prefix, c[|c| - 1]) == Some(c[0])
  }

  /** Prefixes always have a smaller rank. */
  ghost predicate Acyclic(t: Thread, rank: int -> nat) {
    forall i :: Cell(t.prefix, i).Some? ==> rank(Cell(t.prefix, i).value) < rank(i)
  }

  /** The path from the root down to an entry, by recursion on the prefix column. */
  ghost function Path(t: Thread, rank: int -> nat, current: Option<int>): seq<int>
    requires Acyclic(t, rank)
    decreases if current.Some? then rank(current.value) + 1 else 0
  {
    if current.None? then []
    else
      var up := Cell(t.prefix, current.value);
      Path(t, rank, up) + FrameOf(t, current.value)
  }

  /** On an acyclic table the walk yields the whole root-to-leaf path. */
  lemma {:induction false} AcyclicWalkIsPath(t: Thread, rank: int -> nat, current: Option<int>, seen: set<int>)
    requires Acyclic(t, rank)
    requires current.Some? ==> forall s :: s in seen ==> rank(current.value) < rank(s)
    ensures RootToLeaf(t, Visited(t, current, seen)) == Path(t, rank, current)
    decreases if current.Some? then rank(current.value) + 1 else 0
  {
    if current.Some? {
      var i := current.value;
      assert i !in seen;
      var up := Cell(t.prefix, i);
      AcyclicWalkIsPath(t, rank, up, seen + {i});
      var rest := Visited(t, up, seen + {i});
      assert Visited(t, current, seen) == [i] + rest && ([i] + rest)[1..] == rest;
    }
  }

  /** The length of the walk from an entry. */
  ghost function Depth(t: Thread): int -> nat { (i: int) => |Visited(t, Some(i), {})| }

  lemma {:induction false} UnvisitedDoesNotMatter(t: Thread, current: Option<int>, seen: set<int>, i: int)
    requires i !in Visited(t, current, seen)
    ensures Visited(t, current, seen + {i}) == Visited(t, current, seen)
    decreases Rows(t) - seen, if current.Some? then 1 else 0
  {
    if current.Some? && current.value !in seen {
      var c := current.value;
      Shrinks(t, c, seen);
      var rest := Visited(t, Cell(t.prefix, c), seen + {c});
      assert Visited(t, current, seen) == [c] + rest;
      UnvisitedDoesNotMatter(t, Cell(t.prefix, c), seen + {c}, i);
      assert seen + {c} + {i} == seen + {i} + {c};
    }
  }

  /** Without a cycle the walk from a prefix is one shorter. */
  lemma DepthFalls(t: Thread, i: int)
    requires !Cyclic(t) && Cell(t.prefix, i).Some?
    ensures Depth(t)(Cell(t.prefix, i).value) < Depth(t)(i)
  {
    var up := Cell(t.prefix, i);
    if i in Visited(t, up, {}) {
      RevisitIsCycle(t, i);
    }
    UnvisitedDoesNotMatter(t, up, {}, i);
    assert {} + {i} == {i};
  }

  lemma RevisitIsCycle(t: Thread, i: int)
    requires i in Visited(t, Cell(t.prefix, i), {})
    ensures Cyclic(t)
  {
    var up := Cell(t.prefix, i);
    var c := Visited(t, up, {});
    VisitedIsLongestChain(t, up, {});
    var k :| 0 <= k < |c| && c[k] == i;
    var cycle := c[..k + 1];
    assert forall a :: 0 <= a <= k ==> cycle[a] == c[a];
    assert Linked(t, cycle) && Cell(t.prefix, cycle[|cycle| - 1]) == Some(cycle[0]);
  }

  lemma {:induction false} RankFallsAlong(t: Thread, rank: int -> nat, c: seq<int>, k: nat)
    requires Acyclic(t, rank) && Linked(t, c) && k < |c|
    ensures rank(c[k]) <= rank(c[0])
  {
    if k > 0 {
      RankFallsAlong(t, rank, c, k - 1);
      assert Cell(t.prefix, c[k - 1]) == Some(c[k]);
    }
  }

  /** A table has no cycle exactly when its entries can be ranked, by the length of the walk. */
  lemma RankedExactlyWithoutCycle(t: Thread)
    ensures !Cyclic(t) <==> exists rank :: Acyclic(t, rank)
    ensures !Cyclic(t) ==> Acyclic(t, Depth(t))
  {
    if !Cyclic(t) {
      forall i | Cell(t.prefix, i).Some? ensures Depth(t)(Cell(t.prefix, i).value) < Depth(t)(i) {
        DepthFalls(t, i);
      }
      assert Acyclic(t, Depth(t));
    }
    if rank :| Acyclic(t, rank) {
      forall c | c != [] && Linked(t, c) ensures Cell(t.prefix, c[|c| - 1]) != Some(c[0]) {
        RankFallsAlong(t, rank, c, |c| - 1);
      }
    }
  }

  /** On every table without a cycle the walk yields the whole root-to-leaf path. */
  lemma CycleFreeWalkIsPath(t: Thread, start: Option<int>)
    requires !Cyclic(t)
    ensures Acyclic(t, Depth(t)) && RootToLeaf(t, Visited(t, start, {})) == Path(t, Depth(t), start)
  {
    RankedExactlyWithoutCycle(t);
    AcyclicWalkIsPath(t, Depth(t), start, {});
  }

  // ----- naming a frame

  /** `frame_code_id`. */
  function CodeId(libs: seq<string>, t: Thread, func: Option<int>): string {
    if func.None? then ""
    else
      var resource := Cell(t.funcResource, func.value);
      if resource.None? then ""
      else
        var lib := Cell(t.resourceLib, resource.value);
        if lib.None? || !(0 <= lib.value < |libs|) then "" else libs[lib.value]
  }

  /** The function's own name, empty where there is none. */
  function FunctionName(t: Thread, func: Option<int>): string {
    if func.None? || !(0 <= func.value < |t.funcName|) then ""
    else
      match t.funcName[func.value]
      case At(i) => if 0 <= i < |t.strings| then t.strings[i] else ""
      case Literal(text) => text
      case NoName => ""
  }

  predicate HexDigit(c: char) { Digit(c) || 'a' <= c <= 'f' || 'A' <= c <= 'F' }

  /** The name is only an address.  The expression's end also matches before a final newline. */
  predicate AddressLike(name: string) {
    var n := if name != "" && name[|name| - 1] == '\n' then |name| - 1 else |name|;
    n > 2 && "0x" <= name && forall k :: 2 <= k < n ==> HexDigit(name[k])
  }

  function HexNatural(n: nat): string {
    (if n < 16 then "" else HexNatural(n / 16)) + ["0123456789abcdef"[n % 16]]
  }

  function Hex(n: int): string { if n < 0 then "-" + HexNatural(-n) else HexNatural(n) }

  ghost function SymbolOf(d: Debug, t: Thread, frame: int): Option<SymbolIndex.Symbol> {
    var address := Cell(t.address, frame);
    if address.None? then None
    else SymbolIndex.Resolve(d.symbols, address.value, CodeId(d.libs, t, Cell(t.func, frame)))
  }

  /** The name without a symbol: the function's own, the address, or a placeholder. */
  function PlainName(t: Thread, frame: int): string {
    var name := FunctionName(t, Cell(t.func, frame));
    if name != "" && !AddressLike(name) then name
    else if Cell(t.address, frame).Some? then "0x" + Hex(Cell(t.address, frame).value)
    else "<unknown>"
  }

  ghost function NameOf(d: Debug, t: Thread, frame: int): string {
    var symbol := SymbolOf(d, t, frame);
    if symbol.Some? then symbol.value.name + " [" + symbol.value.library + "]" else PlainName(t, frame)
  }

  /** `frame_name`. */
  method FrameName(d: Debug, index: SymbolIndex.Index, t: Thread, frame: int) returns (name: string, resolved: bool)
    requires SymbolIndex.Indexes(index, d.symbols)
    ensures name == NameOf(d, t, frame) && (resolved <==> SymbolOf(d, t, frame).Some?)
  {
    hide SymbolIndex.Resolve, SymbolIndex.Indexes;
    var address, func := Cell(t.address, frame), Cell(t.func, frame);
    if address.Some? {
      var symbol := SymbolIndex.LookupByCode(index, d.symbols, address.value, CodeId(d.libs, t, func));
      if symbol.Some? {
        return symbol.value.name + " [" + symbol.value.library + "]", true;
      }
    }
    return PlainName(t, frame), false;
  }

  // ----- the counters

  /** A counted sample: its thread, its names from root to leaf, and whether any was resolved. */
  datatype Sample = Sample(thread: string, names: seq<string>, resolved: bool)

  ghost function NamesOf(d: Debug, t: Thread, frames: seq<int>): (names: seq<string>)
    ensures |names| == |frames|
  {
    seq(|frames|, i requires 0 <= i < |frames| => NameOf(d, t, frames[i]))
  }

  ghost predicate AnyResolved(d: Debug, t: Thread, frames: seq<int>) {
    exists i :: 0 <= i < |frames| && SymbolOf(d, t, frames[i]).Some?
  }

  ghost function SampleOf(d: Debug, t: Thread, stack: Option<int>): (r: Option<Sample>)
    ensures r.Some? ==> r.value.names != []
  {
    var frames := RootToLeaf(t, Visited(t, stack, {}));
    if frames == [] then None else Some(Sample(t.name, NamesOf(d, t, frames), AnyResolved(d, t, frames)))
  }

  /** The frame's address lies in some symbol. */
  ghost predicate Covered(d: Debug, t: Thread, frame: int) {
    && Cell(t.address, frame).Some?
    && exists s :: s in d.symbols && SymbolIndex.Contains(s, Cell(t.address, frame).value)
  }

  /** A resolved sample has a frame whose address lies in a symbol; among symbols that do not
      overlap these are all such samples. */
  lemma ResolvedMeansCovered(d: Debug, t: Thread, stack: Option<int>)
    ensures var frames, r := RootToLeaf(t, Visited(t, stack, {})), SampleOf(d, t, stack);
            && (r.Some? <==> frames != [])
            && (r.Some? && r.value.resolved ==> exists i :: 0 <= i < |frames| && Covered(d, t, frames[i]))
            && (r.Some? && SymbolIndex.Disjoint(d.symbols) ==>
                (r.value.resolved <==> exists i :: 0 <= i < |frames| && Covered(d, t, frames[i])))
  {
    var frames := RootToLeaf(t, Visited(t, stack, {}));
    hide RootToLeaf, Visited, NamesOf;
    forall i | 0 <= i < |frames|
      ensures SymbolOf(d, t, frames[i]).Some? ==> Covered(d, t, frames[i])
      ensures SymbolIndex.Disjoint(d.symbols) ==> (SymbolOf(d, t, frames[i]).Some? <==> Covered(d, t, frames[i]))
    {
      SymbolFoundExactly(d, t, frames[i]);
    }
  }

  lemma SymbolFoundExactly(d: Debug, t: Thread, frame: int)
    ensures SymbolOf(d, t, frame).Some? ==> Covered(d, t, frame)
    ensures SymbolIndex.Disjoint(d.symbols) ==> (SymbolOf(d, t, frame).Some? <==> Covered(d, t, frame))
  {
    hide SymbolIndex.Resolve, SymbolIndex.Disjoint, SymbolIndex.Contains;
    var address := Cell(t.address, frame);
    if address.Some? {
      SymbolIndex.ResolvesExactly(d.symbols, address.value, CodeId(d.libs, t, Cell(t.func, frame)));
    }
  }

  ghost function AsSeq(r: Option<Sample>): seq<Sample> { if r.Some? then [r.value] else [] }

  /** The samples of the first `n` stacks of a thread. */
  ghost function SamplesOf(d: Debug, t: Thread, n: nat): seq<Sample>
    requires n <= |t.stacks|
  {
    if n == 0 then [] else SamplesOf(d, t, n - 1) + AsSeq(SampleOf(d, t, t.stacks[n - 1]))
  }

  /** The samples of the first `n` threads, those whose name is filtered out excepted. */
  ghost function Samples(d: Debug, threads: seq<Thread>, Keep: string -> bool, n: nat): seq<Sample>
    requires n <= |threads|
  {
    if n == 0 then []
    else
      Samples(d, threads, Keep, n - 1) +
      (if Keep(threads[n - 1].name) then SamplesOf(d, threads[n - 1], |threads[n - 1].stacks|) else [])
  }

  /** A `Counter` is a multiset of names. */
  datatype Summary = Summary(total: nat, resolved: nat, unresolved: nat,
                             threads: multiset<string>, leaf: multiset<string>, inclusive: multiset<string>)

  ghost function Count(samples: seq<Sample>, P: Sample -> bool): nat {
    if samples == [] then 0 else Count(samples[..|samples| - 1], P) + if P(samples[|samples| - 1]) then 1 else 0
  }

  /** What every counter of a summary counts. */
  ghost predicate Tallies(s: Summary, samples: seq<Sample>) {
    && s.total == |samples|
    && s.resolved == Count(samples, ResolvedIs(true)) && s.unresolved == Count(samples, ResolvedIs(false))
    && (forall n :: s.threads[n] == Count(samples, ThreadIs(n)))
    && (forall f :: s.leaf[f] == Count(samples, LeafIs(f)))
    && (forall f :: s.inclusive[f] == Count(samples, Holds(f)))
  }

  ghost function ResolvedIs(b: bool): Sample -> bool { (x: Sample) => x.resolved == b }

  ghost function ThreadIs(n: string): Sample -> bool { (x: Sample) => x.thread == n }

  ghost function LeafIs(f: string): Sample -> bool { (x: Sample) => x.names != [] && x.names[|x.names| - 1] == f }

  ghost function Holds(f: string): Sample -> bool { (x: Sample) => f in x.names }

  ghost predicate Balanced(s: Summary) {
    && |s.leaf| == s.total && |s.threads| == s.total && s.resolved + s.unresolved == s.total
    && forall f :: s.leaf[f] <= s.inclusive[f] <= s.total
  }

  /** One sample counted. */
  function Add(s: Summary, x: Sample): Summary
    requires x.names != []
  {
    Summary(s.total + 1, s.resolved + (if x.resolved then 1 else 0), s.unresolved + (if x.resolved then 0 else 1),
            s.threads + multiset{x.thread}, s.leaf + multiset{x.names[|x.names| - 1]},
            s.inclusive + multiset(set n | n in x.names))
  }

  lemma AddTallies(s: Summary, samples: seq<Sample>, x: Sample)
    requires x.names != [] && Tallies(s, samples)
    ensures Tallies(Add(s, x), samples + [x])
  {
    var longer := samples + [x];
    assert longer[..|samples|] == samples;
  }

  lemma AddBalances(s: Summary, x: Sample)
    requires x.names != [] && Balanced(s)
    ensures Balanced(Add(s, x))
  {
    var s' := Add(s, x);
    forall f ensures s'.leaf[f] <= s'.inclusive[f] <= s'.total {
      assert s.leaf[f] <= s.inclusive[f] <= s.total;
      assert x.names[|x.names| - 1] in x.names;
    }
  }

  /** Naming the frames of one stack. */
  method NameFrames(d: Debug, index: SymbolIndex.Index, t: Thread, frames: seq<int>) returns (names: seq<string>, resolved: bool)
    requires SymbolIndex.Indexes(index, d.symbols)
    ensures names == NamesOf(d, t, frames) && (resolved <==> AnyResolved(d, t, frames))
  {
    hide NameOf, SymbolOf, SymbolIndex.Indexes;
    names, resolved := [], false;
    for i := 0 to |frames|
      invariant names == NamesOf(d, t, frames[..i])
      invariant resolved <==> AnyResolved(d, t, frames[..i])
    {
      var name, known := FrameName(d, index, t, frames[i]);
      assert forall k :: 0 <= k < i ==> frames[..i + 1][k] == frames[..i][k];
      assert frames[..i + 1][i] == frames[i];
      names := names + [name];
      resolved := resolved || known;
    }
    assert frames[..|frames|] == frames;
  }

  method CountThread(d: Debug, index: SymbolIndex.Index, t: Thread, s0: Summary, ghost before: seq<Sample>) returns (s: Summary)
    requires SymbolIndex.Indexes(index, d.symbols) && Tallies(s0, before) && Balanced(s0)
    ensures Tallies(s, before + SamplesOf(d, t, |t.stacks|)) && Balanced(s)
  {
    hide Tallies, Balanced, NamesOf, AnyResolved, RootToLeaf, Visited, Samples, SymbolIndex.Indexes;
    s := s0;
    assert before + [] == before;
    for k := 0 to |t.stacks|
      invariant Tallies(s, before + SamplesOf(d, t, k)) && Balanced(s)
    {
      ghost var sofar := before + SamplesOf(d, t, k);
      assert before + SamplesOf(d, t, k + 1) == sofar + AsSeq(SampleOf(d, t, t.stacks[k]));
      var frames := StackFrames(t, t.stacks[k]);
      if frames == [] {
        assert sofar + [] == sofar;
        continue;
      }
      var names, resolved := NameFrames(d, index, t, frames);
      var x := Sample(t.name, names, resolved);
      AddTallies(s, sofar, x);
      AddBalances(s, x);
      s := Add(s, x);
    }
  }

  lemma NothingCounted()
    ensures var s := Summary(0, 0, 0, multiset{}, multiset{}, multiset{}); Tallies(s, []) && Balanced(s)
  {
  }

  /** `summarize`: every counter counts exactly the samples it names, and the totals agree. */
  method Summarize(d: Debug, index: SymbolIndex.Index, threads: seq<Thread>, Keep: string -> bool) returns (s: Summary)
    requires SymbolIndex.Indexes(index, d.symbols)
    ensures Tallies(s, Samples(d, threads, Keep, |threads|))
    ensures Balanced(s)
  {
    hide Tallies, Balanced, SamplesOf, SymbolIndex.Indexes;
    NothingCounted();
    s := Summary(0, 0, 0, multiset{}, multiset{}, multiset{});
    for i := 0 to |threads|
      invariant Tallies(s, Samples(d, threads, Keep, i)) && Balanced(s)
    {
      ghost var sofar := Samples(d, threads, Keep, i);
      if !Keep(threads[i].name) {
        assert sofar + [] == sofar;
        continue;
      }
      s := CountThread(d, index, threads[i], s, sofar);
    }
  }
}
