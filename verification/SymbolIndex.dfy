/** The symbol index of `summarize_samply_profile_symbols.py`: bisection on start
    addresses with a look-back of eight entries, by code id first. */
module SymbolIndex {
  import opened Text
  import StableSort

  /** `codeId` is empty where the source has none. */
  datatype Symbol = Symbol(rva: int, size: int, name: string, library: string, codeId: string)

  const LOOK_BACK := 8

  function End(s: Symbol): int { s.rva + if s.size > 1 then s.size else 1 }

  predicate Contains(s: Symbol, address: int) { s.rva <= address < End(s) }

  function Start(s: Symbol): int { s.rva }

  datatype IntervalIndex = IntervalIndex(symbols: seq<Symbol>, starts: seq<int>)

  ghost predicate Valid(index: IntervalIndex) {
    && |index.starts| == |index.symbols|
    && (forall i :: 0 <= i < |index.starts| ==> index.starts[i] == index.symbols[i].rva)
    && StableSort.Sorted(index.symbols, Start)
  }

  function MakeIndex(symbols: seq<Symbol>): (r: IntervalIndex)
    ensures Valid(r) && multiset(r.symbols) == multiset(symbols)
  {
    var s := StableSort.Sort(symbols, Start);
    IntervalIndex(s, seq(|s|, i requires 0 <= i < |s| => s[i].rva))
  }

  // ----- bisection

  ghost predicate Splits(starts: seq<int>, address: int, pos: int) {
    && 0 <= pos <= |starts|
    && (forall i :: 0 <= i < pos ==> starts[i] <= address)
    && (forall i :: pos <= i < |starts| ==> address < starts[i])
  }

  method BisectRight(starts: seq<int>, address: int) returns (pos: nat)
    requires forall i, j :: 0 <= i < j < |starts| ==> starts[i] <= starts[j]
    ensures Splits(starts, address, pos)
  {
    var lo, hi := 0, |starts|;
    while lo < hi
      invariant 0 <= lo <= hi <= |starts|
      invariant forall i :: 0 <= i < lo ==> starts[i] <= address
      invariant forall i :: hi <= i < |starts| ==> address < starts[i]
    {
      var mid := (lo + hi) / 2;
      if address < starts[mid] {
        hi := mid;
      } else {
        lo := mid + 1;
      }
    }
    return lo;
  }

  // ----- one index

  /** The position of the last symbol that contains the address: a linear scan from the end. */
  function LastContaining(symbols: seq<Symbol>, address: int): (r: Option<nat>)
    ensures r.Some? ==> r.value < |symbols| && Contains(symbols[r.value], address)
    ensures r.Some? ==> forall i :: r.value < i < |symbols| ==> !Contains(symbols[i], address)
    ensures r.None? ==> forall i :: 0 <= i < |symbols| ==> !Contains(symbols[i], address)
  {
    if symbols == [] then None
    else
      var n := |symbols| - 1;
      if Contains(symbols[n], address) then Some(n)
      else
        var r := LastContaining(symbols[..n], address);
        assert forall i :: 0 <= i < n ==> symbols[..n][i] == symbols[i];
        r
  }

  ghost function Scan(symbols: seq<Symbol>, address: int): Option<Symbol> {
    match LastContaining(symbols, address)
    case None => None
    case Some(i) => Some(symbols[i])
  }

  /** How many symbols start at or before the address. */
  ghost function Position(index: IntervalIndex, address: int): nat {
    |StartingBy(index.symbols, address)|
  }

  ghost function StartingBy(symbols: seq<Symbol>, address: int): seq<Symbol> {
    if symbols == [] then []
    else StartingBy(symbols[..|symbols| - 1], address) +
         (if symbols[|symbols| - 1].rva <= address then [symbols[|symbols| - 1]] else [])
  }

  lemma {:induction false} StartingBySplit(symbols: seq<Symbol>, address: int, pos: nat)
    requires pos <= |symbols|
    requires forall i :: 0 <= i < pos ==> symbols[i].rva <= address
    requires forall i :: pos <= i < |symbols| ==> address < symbols[i].rva
    ensures |StartingBy(symbols, address)| == pos
  {
    if symbols != [] {
      var n := |symbols| - 1;
      StartingBySplit(symbols[..n], address, if pos <= n then pos else n);
    }
  }

  /** The last containing symbol counts only if fewer than eight symbols start
      after it up to the address. */
  ghost predicate WithinLookBack(index: IntervalIndex, address: int) {
    var last := LastContaining(index.symbols, address);
    last.None? || Position(index, address) - LOOK_BACK <= last.value
  }

  /** The look-up is the linear scan exactly where the scan's answer lies within
      the look-back, and otherwise finds nothing at all. */
  method Lookup(index: IntervalIndex, address: int) returns (r: Option<Symbol>)
    requires Valid(index)
    ensures r == if WithinLookBack(index, address) then Scan(index.symbols, address) else None
    ensures r.Some? ==> r.value in index.symbols && Contains(r.value, address)
  {
    hide StableSort.Sorted, StartingBy, Contains;
    var s := index.symbols;
    StartsSorted(index);
    var pos := BisectRight(index.starts, address);
    BeyondIsNotContained(index, address, pos);
    StartingBySplit(s, address, pos);
    var low := if pos > LOOK_BACK then pos - LOOK_BACK else 0;
    var i := pos;
    while i > low
      invariant low <= i <= pos
      invariant forall k :: i <= k < |s| ==> !Contains(s[k], address)
    {
      i := i - 1;
      if Contains(s[i], address) {
        assert LastContaining(s, address) == Some(i);
        return Some(s[i]);
      }
    }
    return None;
  }

  lemma StartsSorted(index: IntervalIndex)
    requires Valid(index)
    ensures forall i, j :: 0 <= i < j < |index.starts| ==> index.starts[i] <= index.starts[j]
  {
    var s := index.symbols;
    assert forall i, j :: 0 <= i < j < |s| ==> Start(s[i]) <= Start(s[j]);
  }

  lemma BeyondIsNotContained(index: IntervalIndex, address: int, pos: nat)
    requires Valid(index) && Splits(index.starts, address, pos)
    ensures forall k :: pos <= k < |index.symbols| ==> !Contains(index.symbols[k], address)
    ensures forall k :: 0 <= k < pos ==> index.symbols[k].rva <= address
    ensures forall k :: pos <= k < |index.symbols| ==> address < index.symbols[k].rva
  {
    forall k | 0 <= k < |index.symbols| ensures k < pos <==> index.symbols[k].rva <= address {
      assert index.starts[k] == index.symbols[k].rva;
    }
  }

  ghost predicate Overlap(x: Symbol, y: Symbol) { Contains(x, y.rva) || Contains(y, x.rva) }

  ghost predicate Disjoint(symbols: seq<Symbol>) {
    forall x, y :: x in symbols && y in symbols && x != y ==> !Overlap(x, y)
  }

  /** Symbols that do not overlap are always found: the only one that can contain the
      address is the last to start by it. */
  lemma DisjointIsWithinLookBack(index: IntervalIndex, address: int)
    requires Valid(index) && Disjoint(index.symbols)
    ensures WithinLookBack(index, address)
  {
    var last := LastContaining(index.symbols, address);
    if last.Some? {
      LastStarterContains(index, address, last.value);
    }
  }

  lemma LastStarterContains(index: IntervalIndex, address: int, i: nat)
    requires Valid(index) && Disjoint(index.symbols)
    requires i < |index.symbols| && Contains(index.symbols[i], address)
    ensures 0 < Position(index, address) <= |index.symbols|
    ensures index.symbols[Position(index, address) - 1] == index.symbols[i]
  {
    var s, last := index.symbols, Position(index, address) - 1;
    Boundary(index, address);
    assert i < last ==> Start(s[i]) <= Start(s[last]);
    assert Overlap(s[i], s[last]);
  }

  lemma Boundary(index: IntervalIndex, address: int)
    requires Valid(index)
    ensures var pos := Position(index, address);
            && pos <= |index.symbols|
            && (forall i :: 0 <= i < pos ==> index.symbols[i].rva <= address)
            && (forall i :: pos <= i < |index.symbols| ==> address < index.symbols[i].rva)
  {
    var pos := SplitPoint(index.symbols, address);
    StartingBySplit(index.symbols, address, pos);
  }

  lemma {:induction false} SplitPoint(s: seq<Symbol>, address: int) returns (pos: nat)
    requires StableSort.Sorted(s, Start)
    ensures pos <= |s|
    ensures forall i :: 0 <= i < pos ==> s[i].rva <= address
    ensures forall i :: pos <= i < |s| ==> address < s[i].rva
  {
    if s == [] || s[|s| - 1].rva <= address {
      pos := |s|;
      forall i | 0 <= i < |s| ensures s[i].rva <= address {
        assert i < |s| - 1 ==> Start(s[i]) <= Start(s[|s| - 1]);
      }
    } else {
      pos := SplitPoint(s[..|s| - 1], address);
    }
  }

  /** On symbols that do not overlap, in whatever order given, the answer is the
      symbol that contains the address. */
  lemma DisjointLookup(symbols: seq<Symbol>, address: int, s: Symbol)
    requires Disjoint(symbols)
    ensures WithinLookBack(MakeIndex(symbols), address)
    ensures Scan(MakeIndex(symbols).symbols, address) == Some(s) <==> s in symbols && Contains(s, address)
  {
    var index := MakeIndex(symbols);
    SameMembers(symbols, index.symbols);
    DisjointIsWithinLookBack(index, address);
    if s in symbols && Contains(s, address) {
      var k :| 0 <= k < |index.symbols| && index.symbols[k] == s;
      var i := LastContaining(index.symbols, address).value;
      OnlyOneContains(symbols, address, s, index.symbols[i]);
    }
  }

  lemma OnlyOneContains(symbols: seq<Symbol>, address: int, x: Symbol, y: Symbol)
    requires Disjoint(symbols) && x in symbols && y in symbols && Contains(x, address) && Contains(y, address)
    ensures x == y
  {
    assert Overlap(x, y);
  }

  lemma SameMembers(a: seq<Symbol>, b: seq<Symbol>)
    requires multiset(a) == multiset(b)
    ensures forall x :: x in a <==> x in b
  {
    forall x ensures x in a <==> x in b {
      assert x in multiset(a) <==> x in multiset(b);
    }
  }

  /** The last symbol that contains the address is missed exactly when the eighth symbol
      after it still starts by the address. */
  lemma MissedExactly(index: IntervalIndex, address: int, i: nat)
    requires Valid(index) && LastContaining(index.symbols, address) == Some(i)
    ensures Scan(index.symbols, address) == Some(index.symbols[i])
    ensures !WithinLookBack(index, address) <==>
            i + LOOK_BACK < |index.symbols| && index.symbols[i + LOOK_BACK].rva <= address
  {
    hide LastContaining;
    Boundary(index, address);
  }

  /** A function of a hundred bytes with eight one-byte symbols inside it. */
  lemma NestedSymbolsAreMissed(index: IntervalIndex)
    requires index.symbols == seq(9, (i: nat) => Symbol(i, if i == 0 then 100 else 1, "f", "lib", ""))
    requires index.starts == seq(9, (i: nat) => i as int)
    ensures Valid(index) && Scan(index.symbols, 50).Some? && !WithinLookBack(index, 50)
  {
    assert Contains(index.symbols[0], 50) && LastContaining(index.symbols, 50) == Some(0);
    MissedExactly(index, 50, 0);
  }

  // ----- by code id

  function Lower(s: string): string {
    seq(|s|, i requires 0 <= i < |s| => if 'A' <= s[i] <= 'Z' then (s[i] as int + 32) as char else s[i])
  }

  /** The symbols of one code id, in the order given. */
  function OfCode(symbols: seq<Symbol>, code: string): seq<Symbol> {
    if symbols == [] then []
    else
      var n := |symbols| - 1;
      OfCode(symbols[..n], code) + (if symbols[n].codeId != "" && Lower(symbols[n].codeId) == code then [symbols[n]] else [])
  }

  /** `by_code_id`, filled symbol by symbol. */
  method GroupByCode(symbols: seq<Symbol>) returns (groups: map<string, seq<Symbol>>)
    ensures forall c :: c in groups <==> OfCode(symbols, c) != []
    ensures forall c :: c in groups ==> groups[c] == OfCode(symbols, c)
  {
    groups := map[];
    for i := 0 to |symbols|
      invariant forall c :: c in groups <==> OfCode(symbols[..i], c) != []
      invariant forall c :: c in groups ==> groups[c] == OfCode(symbols[..i], c)
    {
      assert symbols[..i + 1][..i] == symbols[..i];
      if symbols[i].codeId != "" {
        var code := Lower(symbols[i].codeId);
        groups := groups[code := (if code in groups then groups[code] else []) + [symbols[i]]];
      }
    }
    assert symbols[..|symbols|] == symbols;
  }

  ghost function Answer(index: IntervalIndex, address: int): Option<Symbol> {
    if WithinLookBack(index, address) then Scan(index.symbols, address) else None
  }

  /** The index over all symbols and one index per lower-cased code id. */
  datatype Index = Index(all: IntervalIndex, byCode: map<string, IntervalIndex>)

  ghost predicate Indexes(index: Index, symbols: seq<Symbol>) {
    && index.all == MakeIndex(symbols)
    && (forall c :: c in index.byCode <==> OfCode(symbols, c) != [])
    && (forall c :: c in index.byCode ==> index.byCode[c] == MakeIndex(OfCode(symbols, c)))
  }

  method BuildIndex(symbols: seq<Symbol>) returns (index: Index)
    ensures Indexes(index, symbols)
  {
    hide OfCode, MakeIndex;
    var groups := GroupByCode(symbols);
    return Index(MakeIndex(symbols), map c | c in groups :: MakeIndex(groups[c]));
  }

  /** The code id's own symbols first, then all of them. */
  ghost function Resolve(symbols: seq<Symbol>, address: int, code: string): Option<Symbol> {
    var own := Answer(MakeIndex(OfCode(symbols, Lower(code))), address);
    if code != "" && own.Some? then own else Answer(MakeIndex(symbols), address)
  }

  /** `SymbolIndex.lookup`. */
  method LookupByCode(index: Index, ghost symbols: seq<Symbol>, address: int, code: string) returns (r: Option<Symbol>)
    requires Indexes(index, symbols)
    ensures r == Resolve(symbols, address, code)
  {
    hide OfCode, WithinLookBack, Scan, MakeIndex, Lower, Valid, Contains;
    if code != "" {
      if Lower(code) in index.byCode {
        r := Lookup(index.byCode[Lower(code)], address);
        if r.Some? {
          return;
        }
      } else {
        EmptyIndex(address);
      }
    }
    r := Lookup(index.all, address);
  }

  lemma EmptyIndex(address: int)
    ensures Answer(MakeIndex([]), address) == None
  {
    SameMembers([], MakeIndex([]).symbols);
  }

  lemma {:induction false} OfCodeMembers(symbols: seq<Symbol>, code: string, s: Symbol)
    ensures s in OfCode(symbols, code) <==> s in symbols && s.codeId != "" && Lower(s.codeId) == code
  {
    if symbols != [] {
      var n := |symbols| - 1;
      OfCodeMembers(symbols[..n], code, s);
      assert symbols == symbols[..n] + [symbols[n]];
    }
  }

  /** When one library's symbols do not overlap, a frame of that library gets the symbol of
      its own that contains the address, whatever other libraries hold there. */
  lemma OwnSymbolWins(symbols: seq<Symbol>, address: int, code: string, s: Symbol)
    requires code != "" && Disjoint(OfCode(symbols, Lower(code)))
    requires s in symbols && s.codeId != "" && Lower(s.codeId) == Lower(code) && Contains(s, address)
    ensures Answer(MakeIndex(OfCode(symbols, Lower(code))), address) == Some(s)
  {
    OfCodeMembers(symbols, Lower(code), s);
    DisjointLookup(OfCode(symbols, Lower(code)), address, s);
  }

  lemma AnswerContains(symbols: seq<Symbol>, address: int)
    ensures var r := Answer(MakeIndex(symbols), address); r.Some? ==> r.value in symbols && Contains(r.value, address)
    ensures Disjoint(symbols) ==>
            (Answer(MakeIndex(symbols), address).Some? <==> exists s :: s in symbols && Contains(s, address))
  {
    SameMembers(symbols, MakeIndex(symbols).symbols);
    if Disjoint(symbols) {
      if s :| s in symbols && Contains(s, address) {
        DisjointLookup(symbols, address, s);
      }
    }
  }

  /** What is found contains the address.  Among symbols that do not overlap something is found,
      whatever the code id, exactly when some symbol contains it. */
  lemma ResolvesExactly(symbols: seq<Symbol>, address: int, code: string)
    ensures var r := Resolve(symbols, address, code); r.Some? ==> r.value in symbols && Contains(r.value, address)
    ensures Disjoint(symbols) ==>
            (Resolve(symbols, address, code).Some? <==> exists s :: s in symbols && Contains(s, address))
  {
    var own := OfCode(symbols, Lower(code));
    forall s ensures s in own ==> s in symbols {
      OfCodeMembers(symbols, Lower(code), s);
    }
    hide OfCode, Answer, Contains, Disjoint;
    AnswerContains(own, address);
    AnswerContains(symbols, address);
  }
}
