/** Addresses printed as `symbol+offset` and parsed back, over the memory maps of the process and the
    symbol tables of the mapped files. */
module SymbolNames {
  import opened Options
  import opened HexNumbers
  import opened Searches

  // --------------------------------------------------------------------------------------- '+'

  function Split(s: string): (parts: seq<string>)
    ensures parts != []
  {
    if s == [] then [[]]
    else
      var rest := Split(s[1..]);
      if s[0] == '+' then [[]] + rest else [[s[0]] + rest[0]] + rest[1..]
  }

  lemma {:induction false} SplitWhole(s: string)
    requires '+' !in s
    ensures Split(s) == [s]
  {
    if s != [] {
      SplitWhole(s[1..]);
      assert [s[0]] + s[1..] == s;
    }
  }

  lemma {:induction false} SplitMore(s: string, t: string)
    ensures |Split(s + "+" + t)| == |Split(s)| + |Split(t)|
    ensures '+' !in s ==> Split(s + "+" + t) == [s] + Split(t)
    ensures '+' in s ==> |Split(s)| > 1
  {
    var whole := s + "+" + t;
    if s == [] {
      assert whole[1..] == t;
    } else {
      SplitMore(s[1..], t);
      assert whole[1..] == s[1..] + "+" + t;
      assert s == [s[0]] + s[1..];
    }
  }

  // ----------------------------------------------------------------------------- the symbol tables

  datatype Symbol = Symbol(name: string, low: nat, high: nat)

  /** A file's tables in the order they are searched: its own, the local debug file's, debuginfod's. */
  datatype File = File(pie: bool, tables: seq<seq<Symbol>>)

  function ByName(table: seq<Symbol>, name: string): (i: nat)
    ensures i <= |table|
    ensures i < |table| ==> table[i].name == name
    ensures forall j :: 0 <= j < i ==> table[j].name != name
  {
    First(table, (s: Symbol) => s.name == name, 0)
  }

  /** `resolve_symbol`: the start of a symbol in the first table that has it. */
  function StartIn(tables: seq<seq<Symbol>>, name: string): Option<nat> {
    if tables == [] then None
    else
      var i := ByName(tables[0], name);
      if i < |tables[0]| then Some(tables[0][i].low) else StartIn(tables[1..], name)
  }

  function ByAddress(table: seq<Symbol>, a: int): (i: nat)
    ensures i <= |table|
    ensures i < |table| ==> table[i].low <= a < table[i].high
    ensures forall j :: 0 <= j < i ==> !(table[j].low <= a < table[j].high)
  {
    First(table, (s: Symbol) => s.low <= a < s.high, 0)
  }

  /** `resolve_address`: the first symbol that covers an address, in the first table that has one. */
  function Covering(tables: seq<seq<Symbol>>, a: int): (r: Option<Symbol>)
    ensures r.Some? ==> r.value.low <= a < r.value.high
    ensures r.Some? ==> exists t :: t in tables && r.value in t
  {
    if tables == [] then None
    else
      var i := ByAddress(tables[0], a);
      if i < |tables[0]| then
        assert tables[0][i] in tables[0] && tables[0] in tables;
        Some(tables[0][i])
      else Covering(tables[1..], a)
  }

  // ------------------------------------------------------------------------------ the mapped files

  datatype Map = Map(start: nat, end: nat, file: string)

  predicate Named(m: Map) {
    m.file != "" && m.file[0] != '['
  }

  /** A mapped file: the start of its first map and the end of its last. */
  datatype Mapped = Mapped(path: string, base: nat, top: nat)

  function PathIndex(files: seq<Mapped>, path: string): (i: nat)
    ensures i <= |files|
    ensures i < |files| ==> files[i].path == path
    ensures forall j :: 0 <= j < i ==> files[j].path != path
  {
    First(files, (m: Mapped) => m.path == path, 0)
  }

  /** The files of the first k maps, as the printer collects them. */
  function Ranges(maps: seq<Map>, k: nat): seq<Mapped>
    requires k <= |maps|
  {
    if k == 0 then []
    else
      var files, m := Ranges(maps, k - 1), maps[k - 1];
      var i := PathIndex(files, m.file);
      if !Named(m) then files
      else if i == |files| then files + [Mapped(m.file, m.start, m.end)]
      else files[i := files[i].(top := m.end)]
  }

  /** The files of the first k maps, as the parser collects them: only the starts. */
  function Bases(maps: seq<Map>, k: nat): seq<(string, nat)>
    requires k <= |maps|
  {
    if k == 0 then []
    else
      var files, m := Bases(maps, k - 1), maps[k - 1];
      if Named(m) && !HasPath(files, m.file) then files + [(m.file, m.start)] else files
  }

  predicate HasPath(files: seq<(string, nat)>, path: string) {
    exists i :: 0 <= i < |files| && files[i].0 == path
  }

  function Start(m: Mapped): (string, nat) {
    (m.path, m.base)
  }

  /** Printer and parser see the same files, in the same order, at the same starts. */
  lemma {:induction false} SameFiles(maps: seq<Map>, k: nat)
    requires k <= |maps|
    ensures |Bases(maps, k)| == |Ranges(maps, k)|
    ensures forall i :: 0 <= i < |Ranges(maps, k)| ==> Bases(maps, k)[i] == Start(Ranges(maps, k)[i])
  {
    if k > 0 {
      SameFiles(maps, k - 1);
      var files, bases, m := Ranges(maps, k - 1), Bases(maps, k - 1), maps[k - 1];
      var i := PathIndex(files, m.file);
      assert HasPath(bases, m.file) <==> i < |files| by {
        if i < |files| {
          assert bases[i].0 == m.file;
        } else {
          assert forall j :: 0 <= j < |bases| ==> bases[j].0 == files[j].path;
        }
      }
    }
  }

  // ------------------------------------------------------------------------ printing and parsing

  /** The readable ELF files by path. */
  type Elves = map<string, File>

  /** Where an address was found: the file's base as added to its symbols, and the symbol. */
  datatype Place = Place(base: nat, symbol: Symbol)

  function BaseOf(f: File, base: nat): nat {
    if f.pie then base else 0
  }

  /** The search of `resolve_address_in_maps` from file k on. */
  function Locate(elves: Elves, files: seq<Mapped>, a: nat, k: nat): (p: Option<Place>)
    requires k <= |files|
    ensures p.Some? ==> p.value.base + p.value.symbol.low <= a < p.value.base + p.value.symbol.high
    decreases |files| - k
  {
    if k == |files| then None
    else
      var m := files[k];
      if m.base <= a < m.top && m.path in elves then
        var base := BaseOf(elves[m.path], m.base);
        var s := Covering(elves[m.path].tables, a - base);
        if s.Some? then Some(Place(base, s.value)) else Locate(elves, files, a, k + 1)
      else Locate(elves, files, a, k + 1)
  }

  function Text(p: Place, a: nat): string
    requires p.base + p.symbol.low <= a
  {
    p.symbol.name + "+" + ToHex(a - p.base - p.symbol.low)
  }

  /** `resolve_address_in_maps` */
  function Print(elves: Elves, maps: seq<Map>, a: nat): string {
    var p := Locate(elves, Ranges(maps, |maps|), a, 0);
    if p.Some? then Text(p.value, a) else "0x" + ToHex(a)
  }

  /** The address of a symbol in the first file that has it, from file k on. */
  function FirstStart(elves: Elves, files: seq<(string, nat)>, name: string, k: nat): Option<nat>
    requires k <= |files|
    decreases |files| - k
  {
    if k == |files| then None
    else
      var (path, base) := files[k];
      if path in elves && StartIn(elves[path].tables, name).Some? then
        Some(StartIn(elves[path].tables, name).value + BaseOf(elves[path], base))
      else FirstStart(elves, files, name, k + 1)
  }

  /** The name and the offset of a text; a second '+' or an offset that is no number is an error. */
  function SplitOffset(text: string): Option<(string, int)> {
    if '+' in text then
      var parts := Split(text);
      if |parts| != 2 || FromHex(parts[1]).None? then None else Some((parts[0], FromHex(parts[1]).value))
    else Some((text, 0))
  }

  /** `resolve_symbol_in_maps` */
  function Parse(elves: Elves, maps: seq<Map>, text: string): Option<int> {
    var parsed := SplitOffset(text);
    if parsed.None? then None
    else
      var start := FirstStart(elves, Bases(maps, |maps|), parsed.value.0, 0);
      if start.None? then None else Some(start.value + parsed.value.1)
  }

  lemma {:induction false} SplitPrinted(name: string, n: nat)
    ensures SplitOffset(name + "+" + ToHex(n)) == if '+' in name then None else Some((name, n))
  {
    HexRoundTrip(n);
    SplitWhole(ToHex(n));
    SplitMore(name, ToHex(n));
    assert (name + "+" + ToHex(n))[|name|] == '+';
  }

  lemma {:induction false} ParsePrinted(elves: Elves, maps: seq<Map>, p: Place, a: nat)
    requires p.base + p.symbol.low <= a
    ensures var start := FirstStart(elves, Bases(maps, |maps|), p.symbol.name, 0);
            Parse(elves, maps, Text(p, a)) ==
              if '+' in p.symbol.name || start.None? then None
              else Some(start.value + (a - p.base - p.symbol.low))
  {
    SplitPrinted(p.symbol.name, a - p.base - p.symbol.low);
  }

  /** Parsing what was printed for an address found at a symbol gives the address back if and only
      if the symbol's name has no '+' and the first mapped file with that name, in its first table
      with it, has it at that symbol's start. */
  lemma {:induction false} RoundTripIff(elves: Elves, maps: seq<Map>, a: nat, p: Place)
    requires Locate(elves, Ranges(maps, |maps|), a, 0) == Some(p)
    ensures Parse(elves, maps, Print(elves, maps, a)) == Some(a) <==>
            '+' !in p.symbol.name &&
            FirstStart(elves, Bases(maps, |maps|), p.symbol.name, 0) == Some(p.base + p.symbol.low)
  {
    var text := Print(elves, maps, a);
    assert text == Text(p, a);
    ParsePrinted(elves, maps, p, a);
  }

  /** One file with two symbols of one name: an address in the second is parsed as one in the first. */
  lemma {:induction false} RepeatedNameFails() returns (elves: Elves, maps: seq<Map>)
    ensures Print(elves, maps, 9) == "f+1" && Parse(elves, maps, "f+1") == Some(1)
  {
    var symbols := [Symbol("f", 0, 4), Symbol("f", 8, 16)];
    elves, maps := map["/a" := File(false, [symbols])], [Map(0, 16, "/a")];
    TwoSymbols(symbols);
    OneFile(maps, "/a", 16);
    SecondSymbol(elves, maps, File(false, [symbols]), symbols[1]);
  }

  lemma {:induction false} SecondSymbol(elves: Elves, maps: seq<Map>, file: File, second: Symbol)
    requires maps == [Map(0, 16, "/a")] && "/a" in elves && elves["/a"] == file && !file.pie
    requires Ranges(maps, 1) == [Mapped("/a", 0, 16)] && Bases(maps, 1) == [("/a", 0)]
    requires second == Symbol("f", 8, 16)
    requires Covering(file.tables, 9) == Some(second) && StartIn(file.tables, "f") == Some(0)
    ensures Print(elves, maps, 9) == "f+1" && Parse(elves, maps, "f+1") == Some(1)
  {
    var p := Place(0, second);
    assert Locate(elves, Ranges(maps, 1), 9, 0) == Some(p);
    assert FirstStart(elves, Bases(maps, 1), "f", 0) == Some(0);
    assert Text(p, 9) == "f+1" by {
      assert "f" + "+" + "1" == "f+1";
    }
    ParsePrinted(elves, maps, p, 9);
  }

  lemma {:induction false} TwoSymbols(symbols: seq<Symbol>)
    requires symbols == [Symbol("f", 0, 4), Symbol("f", 8, 16)]
    ensures Covering([symbols], 9) == Some(symbols[1]) && StartIn([symbols], "f") == Some(0)
  {
    assert symbols[0].name == "f" && symbols[1].low == 8;
    assert ByAddress(symbols, 9) == 1 && ByName(symbols, "f") == 0;
  }

  /** A name with a '+' in it is not parsed. */
  lemma {:induction false} PlusInNameFails() returns (elves: Elves, maps: seq<Map>)
    ensures Print(elves, maps, 4) == "f+g+4" && Parse(elves, maps, "f+g+4") == None
  {
    var symbol := Symbol("f+g", 0, 16);
    elves, maps := map["/a" := File(false, [[symbol]])], [Map(0, 16, "/a")];
    OneFile(maps, "/a", 16);
    var p := Place(0, symbol);
    assert Locate(elves, Ranges(maps, 1), 4, 0) == Some(p);
    assert symbol.name[1] == '+';
    ParsePrinted(elves, maps, p, 4);
    assert Text(p, 4) == "f+g" + "+" + "4";
  }

  lemma {:induction false} OneFile(maps: seq<Map>, path: string, top: nat)
    requires maps == [Map(0, top, path)] && path != "" && path[0] != '['
    ensures Ranges(maps, 1) == [Mapped(path, 0, top)] && Bases(maps, 1) == [(path, 0)]
  {
    assert Ranges(maps, 0) == [] && Bases(maps, 0) == [];
  }

  /** Every table entry of the mapped files that has a symbol's name has its address. */
  ghost predicate OneAddress(elves: Elves, files: seq<Mapped>, p: Place) {
    forall k :: 0 <= k < |files| && files[k].path in elves ==>
      forall t, s :: t in elves[files[k].path].tables && s in t && s.name == p.symbol.name ==>
        BaseOf(elves[files[k].path], files[k].base) + s.low == p.base + p.symbol.low
  }

  /** A name is found in some tables exactly when one of them has an entry with it, and its start is
      such an entry's. */
  lemma {:induction false} StartInFound(tables: seq<seq<Symbol>>, name: string)
    ensures StartIn(tables, name).Some? <==> exists t, s :: t in tables && s in t && s.name == name
    ensures StartIn(tables, name).Some? ==>
              exists t, s :: t in tables && s in t && s.name == name && s.low == StartIn(tables, name).value
  {
    if tables != [] {
      var i, rest := ByName(tables[0], name), tables[1..];
      assert tables == [tables[0]] + rest;
      if i < |tables[0]| {
        assert tables[0] in tables && tables[0][i] in tables[0];
      } else {
        StartInFound(rest, name);
      }
    }
  }

  lemma {:induction false} LocateFinds(elves: Elves, files: seq<Mapped>, a: nat, k: nat) returns (f: nat)
    requires k <= |files| && Locate(elves, files, a, k).Some?
    ensures k <= f < |files| && files[f].path in elves
    ensures var p := Locate(elves, files, a, k).value;
            && p.base == BaseOf(elves[files[f].path], files[f].base)
            && exists t :: t in elves[files[f].path].tables && p.symbol in t
    decreases |files| - k
  {
    var m := files[k];
    if m.base <= a < m.top && m.path in elves &&
       Covering(elves[m.path].tables, a - BaseOf(elves[m.path], m.base)).Some? {
      f := k;
    } else {
      f := LocateFinds(elves, files, a, k + 1);
    }
  }

  lemma {:induction false} FirstStartIs(elves: Elves, files: seq<Mapped>, bases: seq<(string, nat)>, p: Place,
                                        k: nat, f: nat)
    requires k <= f < |files| == |bases| && files[f].path in elves && OneAddress(elves, files, p)
    requires forall i :: 0 <= i < |files| ==> bases[i] == Start(files[i])
    requires exists t :: t in elves[files[f].path].tables && p.symbol in t
    ensures FirstStart(elves, bases, p.symbol.name, k) == Some(p.base + p.symbol.low)
    decreases f - k
  {
    var path := files[k].path;
    assert bases[k] == (path, files[k].base);
    if path in elves {
      StartInFound(elves[path].tables, p.symbol.name);
    }
    if path !in elves || StartIn(elves[path].tables, p.symbol.name).None? {
      assert k != f;
      FirstStartIs(elves, files, bases, p, k + 1, f);
    }
  }

  /** When no name is repeated with another address and the symbol's has no '+', every address
      printed as a symbol parses back to itself, in position-independent files and others. */
  lemma {:induction false} RoundTrip(elves: Elves, maps: seq<Map>, a: nat, p: Place)
    requires Locate(elves, Ranges(maps, |maps|), a, 0) == Some(p)
    requires '+' !in p.symbol.name && OneAddress(elves, Ranges(maps, |maps|), p)
    ensures Parse(elves, maps, Print(elves, maps, a)) == Some(a)
  {
    var files := Ranges(maps, |maps|);
    var f := LocateFinds(elves, files, a, 0);
    SameFiles(maps, |maps|);
    FirstStartIs(elves, files, Bases(maps, |maps|), p, 0, f);
    RoundTripIff(elves, maps, a, p);
  }

  // ------------------------------------------------------------------- what the mapped files are

  /** One of the first k maps is the first, or the last, with its file. */
  predicate FirstOf(maps: seq<Map>, k: nat, i: int, path: string) {
    0 <= i < k <= |maps| && Named(maps[i]) && maps[i].file == path && forall j :: 0 <= j < i ==> maps[j].file != path
  }

  predicate LastOf(maps: seq<Map>, k: nat, i: int, path: string) {
    0 <= i < k <= |maps| && Named(maps[i]) && maps[i].file == path && forall j :: i < j < k ==> maps[j].file != path
  }

  ghost predicate Spans(maps: seq<Map>, k: nat, m: Mapped) {
    && (exists i :: FirstOf(maps, k, i, m.path) && maps[i].start == m.base)
    && (exists i :: LastOf(maps, k, i, m.path) && maps[i].end == m.top)
  }

  predicate DistinctPaths(files: seq<Mapped>) {
    forall i, j :: 0 <= i < j < |files| ==> files[i].path != files[j].path
  }

  lemma {:induction false} RangesDistinct(maps: seq<Map>, k: nat)
    requires k <= |maps|
    ensures DistinctPaths(Ranges(maps, k))
  {
    if k > 0 {
      RangesDistinct(maps, k - 1);
      var before := Ranges(maps, k - 1);
      assert DistinctPaths(before);
    }
  }

  lemma {:induction false} RangesComplete(maps: seq<Map>, k: nat, i: nat)
    requires i < k <= |maps| && Named(maps[i])
    ensures var files := Ranges(maps, k);
            PathIndex(files, maps[i].file) < |files|
  {
    var before, files := Ranges(maps, k - 1), Ranges(maps, k);
    if i < k - 1 {
      RangesComplete(maps, k - 1, i);
      var j := PathIndex(before, maps[i].file);
      assert files[j].path == maps[i].file;
    } else {
      var j := PathIndex(before, maps[i].file);
      assert files[j].path == maps[i].file;
    }
  }

  lemma {:induction false} RangesSpan(maps: seq<Map>, k: nat, i: nat)
    requires k <= |maps| && i < |Ranges(maps, k)|
    ensures Spans(maps, k, Ranges(maps, k)[i])
  {
    var before, files, m := Ranges(maps, k - 1), Ranges(maps, k), maps[k - 1];
    if i < |before| {
      RangesSpan(maps, k - 1, i);
      RangesDistinct(maps, k - 1);
      SpanGrows(maps, k, before[i], files[i]);
    } else {
      forall j | 0 <= j < k - 1
        ensures maps[j].file != m.file
      {
        if Named(maps[j]) {
          RangesComplete(maps, k - 1, j);
        }
      }
      assert FirstOf(maps, k, k - 1, m.file) && LastOf(maps, k, k - 1, m.file);
    }
  }

  /** One more map takes the end of its file further, and of no other. */
  lemma {:induction false} SpanGrows(maps: seq<Map>, k: nat, m: Mapped, n: Mapped)
    requires 0 < k <= |maps| && Spans(maps, k - 1, m)
    requires n == if Named(maps[k - 1]) && maps[k - 1].file == m.path then m.(top := maps[k - 1].end) else m
    ensures Spans(maps, k, n)
  {
    var i :| FirstOf(maps, k - 1, i, m.path) && maps[i].start == m.base;
    var j :| LastOf(maps, k - 1, j, m.path) && maps[j].end == m.top;
    assert FirstOf(maps, k, i, n.path);
    assert LastOf(maps, k, if maps[k - 1].file == m.path then k - 1 else j, n.path);
  }

  /** The collected files are those of the named maps, each once, from the start of its first map to
      the end of its last. */
  lemma {:induction false} RangesAre(maps: seq<Map>)
    ensures var files := Ranges(maps, |maps|);
            && DistinctPaths(files)
            && (forall i :: 0 <= i < |maps| && Named(maps[i]) ==> PathIndex(files, maps[i].file) < |files|)
            && (forall i :: 0 <= i < |files| ==> Spans(maps, |maps|, files[i]))
  {
    RangesDistinct(maps, |maps|);
    forall i | 0 <= i < |maps| && Named(maps[i])
      ensures PathIndex(Ranges(maps, |maps|), maps[i].file) < |Ranges(maps, |maps|)|
    {
      RangesComplete(maps, |maps|, i);
    }
    forall i | 0 <= i < |Ranges(maps, |maps|)|
      ensures Spans(maps, |maps|, Ranges(maps, |maps|)[i])
    {
      RangesSpan(maps, |maps|, i);
    }
  }

  // ---------------------------------------------- printing and parsing, from the maps and tables alone

  /** One of the first k maps is a file's. */
  predicate MappedBefore(maps: seq<Map>, k: nat, path: string)
    requires k <= |maps|
  {
    exists j :: 0 <= j < k && Named(maps[j]) && maps[j].file == path
  }

  /** The file whose first map is the i-th is the next one collected after those of the maps before. */
  lemma {:induction false} FileIndex(maps: seq<Map>, i: nat)
    requires i < |maps| && FirstOf(maps, |maps|, i, maps[i].file)
    ensures var f, bases := |Bases(maps, i)|, Bases(maps, |maps|);
            && f < |bases| && bases[f] == (maps[i].file, maps[i].start)
            && forall g :: 0 <= g < f ==> MappedBefore(maps, i, bases[g].0)
  {
    BasesFrom(maps, i);
    var before := Bases(maps, i);
    assert !HasPath(before, maps[i].file);
    assert Bases(maps, i + 1) == before + [(maps[i].file, maps[i].start)];
    BasesPrefix(maps, i + 1, |maps|);
  }

  lemma {:induction false} BasesFrom(maps: seq<Map>, k: nat)
    requires k <= |maps|
    ensures forall g :: 0 <= g < |Bases(maps, k)| ==> MappedBefore(maps, k, Bases(maps, k)[g].0)
  {
    if k > 0 {
      BasesFrom(maps, k - 1);
      var before, bases := Bases(maps, k - 1), Bases(maps, k);
      forall g | 0 <= g < |bases|
        ensures MappedBefore(maps, k, bases[g].0)
      {
        if g < |before| {
          assert MappedBefore(maps, k - 1, before[g].0);
        } else {
          assert maps[k - 1].file == bases[g].0;
        }
      }
    }
  }

  lemma {:induction false} BasesPrefix(maps: seq<Map>, k: nat, n: nat)
    requires k <= n <= |maps|
    ensures Bases(maps, k) <= Bases(maps, n)
    decreases n - k
  {
    if k < n {
      BasesPrefix(maps, k, n - 1);
    }
  }

  /** Some table of a readable file has a symbol of a name. */
  ghost predicate HasName(elves: Elves, path: string, name: string) {
    path in elves && exists t, s :: t in elves[path].tables && s in t && s.name == name
  }

  lemma {:induction false} FirstStartSkips(elves: Elves, files: seq<(string, nat)>, name: string, k: nat, f: nat)
    requires k <= f <= |files| && forall g :: k <= g < f ==> !HasName(elves, files[g].0, name)
    ensures FirstStart(elves, files, name, k) == FirstStart(elves, files, name, f)
    decreases f - k
  {
    if k < f {
      if files[k].0 in elves {
        StartInFound(elves[files[k].0].tables, name);
      }
      FirstStartSkips(elves, files, name, k + 1, f);
    }
  }

  /** A name without '+' is parsed as a symbol of that name in the first mapped file that has one: at the
      symbol's own start, with the start of the file's first map added if and only if the file is
      position-independent. */
  lemma {:induction false} ParseNameIs(elves: Elves, maps: seq<Map>, i: nat, name: string)
    requires '+' !in name && i < |maps| && Named(maps[i]) && HasName(elves, maps[i].file, name)
    requires forall j :: 0 <= j < i && Named(maps[j]) ==> !HasName(elves, maps[j].file, name)
    ensures var file := elves[maps[i].file];
            exists t, s :: t in file.tables && s in t && s.name == name &&
              Parse(elves, maps, name) == Some(s.low + if file.pie then maps[i].start else 0)
  {
    var bases := Bases(maps, |maps|);
    assert forall j :: 0 <= j < i && maps[j].file == maps[i].file ==> Named(maps[j]);
    FileIndex(maps, i);
    var f := |Bases(maps, i)|;
    FirstStartSkips(elves, bases, name, 0, f);
    StartInFound(elves[maps[i].file].tables, name);
  }

  /** One that no mapped file has is not parsed. */
  lemma {:induction false} ParseUnknown(elves: Elves, maps: seq<Map>, name: string)
    requires '+' !in name && forall j :: 0 <= j < |maps| && Named(maps[j]) ==> !HasName(elves, maps[j].file, name)
    ensures Parse(elves, maps, name) == None
  {
    BasesFrom(maps, |maps|);
    FirstStartSkips(elves, Bases(maps, |maps|), name, 0, |Bases(maps, |maps|)|);
  }

  /** An offset written after a name is added to what the name is parsed as. */
  lemma {:induction false} ParseOffset(elves: Elves, maps: seq<Map>, name: string, n: nat)
    requires '+' !in name
    ensures var plain := Parse(elves, maps, name);
            Parse(elves, maps, name + "+" + ToHex(n)) == if plain.None? then None else Some(plain.value + n)
  {
    SplitPrinted(name, n);
  }

  /** Whether a symbol of a file, mapped from a start on, covers an address. */
  predicate Covers(file: File, start: nat, a: nat, s: Symbol) {
    s.low <= a - (if file.pie then start else 0) < s.high
  }

  /** A text is the name of such a symbol and the offset of the address from its start. */
  ghost predicate NamesSymbol(file: File, start: nat, a: nat, text: string) {
    exists t, s :: t in file.tables && s in t && Covers(file, start, a, s) &&
      text == s.name + "+" + ToHex(a - (if file.pie then start else 0) - s.low)
  }

  /** The i-th map is the first one of a readable file whose maps span an address, and some symbol of the
      file covers it. */
  ghost predicate Resolves(elves: Elves, maps: seq<Map>, i: nat, a: nat) {
    && i < |maps| && FirstOf(maps, |maps|, i, maps[i].file) && maps[i].file in elves
    && (exists k :: LastOf(maps, |maps|, k, maps[i].file) && maps[i].start <= a < maps[k].end)
    && var file := elves[maps[i].file];
       exists t, s :: t in file.tables && s in t && Covers(file, maps[i].start, a, s)
  }

  lemma {:induction false} CoveringFound(tables: seq<seq<Symbol>>, a: int)
    ensures Covering(tables, a).Some? <==> exists t, s :: t in tables && s in t && s.low <= a < s.high
  {
    if tables != [] {
      var rest := tables[1..];
      assert tables == [tables[0]] + rest;
      CoveringFound(rest, a);
      if t, s :| t in tables && s in t && s.low <= a < s.high {
        assert t == tables[0] || t in rest;
      }
    }
  }

  ghost predicate Hits(elves: Elves, m: Mapped, a: nat) {
    && m.base <= a < m.top && m.path in elves
    && Covering(elves[m.path].tables, a - BaseOf(elves[m.path], m.base)).Some?
  }

  lemma {:induction false} LocateSkips(elves: Elves, files: seq<Mapped>, a: nat, k: nat, f: nat)
    requires k <= f <= |files| && forall g :: k <= g < f ==> !Hits(elves, files[g], a)
    ensures Locate(elves, files, a, k) == Locate(elves, files, a, f)
    decreases f - k
  {
    if k < f {
      LocateSkips(elves, files, a, k + 1, f);
    }
  }

  /** A collected file that the search would stop at resolves the address. */
  lemma {:induction false} HitResolves(elves: Elves, maps: seq<Map>, g: nat, a: nat) returns (i: nat)
    requires g < |Ranges(maps, |maps|)| && Hits(elves, Ranges(maps, |maps|)[g], a)
    ensures Resolves(elves, maps, i, a) && maps[i].file == Ranges(maps, |maps|)[g].path
  {
    var m := Ranges(maps, |maps|)[g];
    RangesSpan(maps, |maps|, g);
    i :| FirstOf(maps, |maps|, i, m.path) && maps[i].start == m.base;
    var k :| LastOf(maps, |maps|, k, m.path) && maps[k].end == m.top;
    CoveringFound(elves[m.path].tables, a - BaseOf(elves[m.path], m.base));
    var t, s :| t in elves[m.path].tables && s in t && s.low <= a - BaseOf(elves[m.path], m.base) < s.high;
    assert Covers(elves[m.path], maps[i].start, a, s);
  }

  lemma {:induction false} EarlierHit(elves: Elves, maps: seq<Map>, i: nat, g: nat, a: nat) returns (j: nat)
    requires i < |maps| && FirstOf(maps, |maps|, i, maps[i].file)
    requires g < |Bases(maps, i)| && g < |Ranges(maps, |maps|)| && Hits(elves, Ranges(maps, |maps|)[g], a)
    ensures j < i && Resolves(elves, maps, j, a)
  {
    FileIndex(maps, i);
    SameFiles(maps, |maps|);
    j := HitResolves(elves, maps, g, a);
  }

  /** An address is printed as name and offset of a symbol that covers it, in the first mapped file that has
      one and whose maps span the address. The offset counts from the symbol's start, and from the start of
      the file's first map if and only if the file is position-independent. */
  lemma {:induction false} PrintIs(elves: Elves, maps: seq<Map>, i: nat, a: nat)
    requires Resolves(elves, maps, i, a) && forall j :: 0 <= j < i ==> !Resolves(elves, maps, j, a)
    ensures NamesSymbol(elves[maps[i].file], maps[i].start, a, Print(elves, maps, a))
  {
    var files, f := Ranges(maps, |maps|), |Bases(maps, i)|;
    FileIndex(maps, i);
    SameFiles(maps, |maps|);
    forall g | 0 <= g < f
      ensures !Hits(elves, files[g], a)
    {
      if Hits(elves, files[g], a) {
        var j := EarlierHit(elves, maps, i, g, a);
      }
    }
    LocateSkips(elves, files, a, 0, f);
    assert Bases(maps, |maps|)[f] == Start(files[f]);
    SpanReaches(elves, maps, i, a, f);
    FoundAt(elves, files, a, f);
  }

  lemma {:induction false} FoundAt(elves: Elves, files: seq<Mapped>, a: nat, f: nat)
    requires f < |files| && files[f].path in elves && files[f].base <= a < files[f].top
    requires var file := elves[files[f].path];
             exists t, s :: t in file.tables && s in t && Covers(file, files[f].base, a, s)
    ensures var p := Locate(elves, files, a, f);
            p.Some? && NamesSymbol(elves[files[f].path], files[f].base, a, Text(p.value, a))
  {
    var file := elves[files[f].path];
    var s := SymbolFound(file, files[f].base, a);
    LocatedHere(elves, files, a, f, s);
    TextNames(file, files[f].base, a, s);
  }

  lemma {:induction false} SymbolFound(file: File, start: nat, a: nat) returns (s: Symbol)
    requires exists t, s :: t in file.tables && s in t && Covers(file, start, a, s)
    ensures Covering(file.tables, a - BaseOf(file, start)) == Some(s) && Covers(file, start, a, s)
    ensures exists t :: t in file.tables && s in t
  {
    CoveringFound(file.tables, a - BaseOf(file, start));
    s := Covering(file.tables, a - BaseOf(file, start)).value;
  }

  lemma {:induction false} TextNames(file: File, start: nat, a: nat, s: Symbol)
    requires Covers(file, start, a, s) && exists t :: t in file.tables && s in t
    ensures NamesSymbol(file, start, a, Text(Place(BaseOf(file, start), s), a))
  {
  }

  lemma {:induction false} LocatedHere(elves: Elves, files: seq<Mapped>, a: nat, f: nat, s: Symbol)
    requires f < |files| && files[f].path in elves && files[f].base <= a < files[f].top
    requires var file := elves[files[f].path]; Covering(file.tables, a - BaseOf(file, files[f].base)) == Some(s)
    ensures Locate(elves, files, a, f) == Some(Place(BaseOf(elves[files[f].path], files[f].base), s))
  {
  }

  lemma {:induction false} SpanReaches(elves: Elves, maps: seq<Map>, i: nat, a: nat, f: nat)
    requires Resolves(elves, maps, i, a) && f < |Ranges(maps, |maps|)|
    requires Ranges(maps, |maps|)[f].path == maps[i].file
    ensures maps[i].start <= a < Ranges(maps, |maps|)[f].top
  {
    var m := Ranges(maps, |maps|)[f];
    RangesSpan(maps, |maps|, f);
    var k :| LastOf(maps, |maps|, k, m.path) && maps[k].end == m.top;
    var j :| LastOf(maps, |maps|, j, m.path) && maps[i].start <= a < maps[j].end;
    assert j == k;
  }

  /** One that no mapped file resolves is printed as "0x" and its digits. */
  lemma {:induction false} PrintUnresolved(elves: Elves, maps: seq<Map>, a: nat)
    requires forall j :: 0 <= j < |maps| ==> !Resolves(elves, maps, j, a)
    ensures Print(elves, maps, a) == "0x" + ToHex(a)
  {
    var files := Ranges(maps, |maps|);
    forall g | 0 <= g < |files|
      ensures !Hits(elves, files[g], a)
    {
      if Hits(elves, files[g], a) {
        var i := HitResolves(elves, maps, g, a);
      }
    }
    LocateSkips(elves, files, a, 0, |files|);
  }

  /** A position-independent file mapped from 0x1000 on, with a symbol at 0x10. */
  lemma {:induction false} SharedObject() returns (elves: Elves, maps: seq<Map>)
    ensures Parse(elves, maps, "main") == Some(0x1010) && Print(elves, maps, 0x1014) == "main+4"
  {
    var main := Symbol("main", 0x10, 0x20);
    var file := File(true, [[main]]);
    elves, maps := map["/a" := file], [Map(0x1000, 0x2000, "/a")];
    assert [main][0] == main && file.tables[0] == [main];
    assert main in [main] && [main] in file.tables;
    assert HasName(elves, "/a", "main");
    ParseNameIs(elves, maps, 0, "main");
    SharedPrints(elves, maps, file, main);
  }

  lemma {:induction false} SharedPrints(elves: Elves, maps: seq<Map>, file: File, main: Symbol)
    requires main == Symbol("main", 0x10, 0x20) && file == File(true, [[main]])
    requires elves == map["/a" := file] && maps == [Map(0x1000, 0x2000, "/a")]
    ensures Print(elves, maps, 0x1014) == "main+4"
  {
    assert [main][0] == main && file.tables[0] == [main];
    assert main in [main] && [main] in file.tables;
    assert LastOf(maps, 1, 0, "/a") && Covers(file, 0x1000, 0x1014, main);
    assert Resolves(elves, maps, 0, 0x1014);
    PrintIs(elves, maps, 0, 0x1014);
    assert ToHex(4) == "4";
  }

  // ------------------------------------------------------------ the functions as the program has them

  method CollectRanges(maps: seq<Map>) returns (files: seq<Mapped>)
    ensures files == Ranges(maps, |maps|)
  {
    files := [];
    for k := 0 to |maps|
      invariant files == Ranges(maps, k)
    {
      var m := maps[k];
      if m.file == "" || m.file[0] == '[' {
        continue;
      }
      var i := PathIndex(files, m.file);
      if i == |files| {
        files := files + [Mapped(m.file, m.start, m.end)];
      } else {
        files := files[i := Mapped(m.file, files[i].base, m.end)];
      }
    }
  }

  method CollectBases(maps: seq<Map>) returns (files: seq<(string, nat)>)
    ensures files == Bases(maps, |maps|)
  {
    files := [];
    for k := 0 to |maps|
      invariant files == Bases(maps, k)
    {
      var m := maps[k];
      if m.file != "" && !HasPath(files, m.file) && m.file[0] != '[' {
        files := files + [(m.file, m.start)];
      }
    }
  }

  method FindPlace(elves: Elves, files: seq<Mapped>, a: nat) returns (p: Option<Place>)
    ensures p == Locate(elves, files, a, 0)
  {
    for k := 0 to |files|
      invariant Locate(elves, files, a, 0) == Locate(elves, files, a, k)
    {
      var m := files[k];
      if a < m.base || a >= m.top || m.path !in elves {
        continue;
      }
      var base := if elves[m.path].pie then m.base else 0;
      var s := Covering(elves[m.path].tables, a - base);
      if s.Some? {
        return Some(Place(base, s.value));
      }
    }
    p := None;
  }

  method ResolveAddressInMaps(elves: Elves, maps: seq<Map>, a: nat) returns (text: string)
    ensures text == Print(elves, maps, a)
  {
    var files := CollectRanges(maps);
    var p := FindPlace(elves, files, a);
    if p.Some? {
      text := p.value.symbol.name + "+" + ToHex(a - p.value.base - p.value.symbol.low);
    } else {
      text := "0x" + ToHex(a);
    }
  }

  method ResolveSymbolInMaps(elves: Elves, maps: seq<Map>, symbol: string) returns (r: Option<int>)
    ensures r == Parse(elves, maps, symbol)
  {
    var name, offset := symbol, 0;
    if '+' in symbol {
      var parts := Split(symbol);
      if |parts| != 2 {
        return None;
      }
      var parsed := FromHex(parts[1]);
      if parsed.None? {
        return None;
      }
      name, offset := parts[0], parsed.value;
    }
    var files := CollectBases(maps);
    for k := 0 to |files|
      invariant FirstStart(elves, files, name, 0) == FirstStart(elves, files, name, k)
    {
      var (path, base) := files[k];
      if path in elves {
        var start := StartIn(elves[path].tables, name);
        if start.Some? {
          var address := start.value;
          if elves[path].pie {
            address := address + base;
          }
          return Some(address + offset);
        }
      }
    }
    r := None;
  }
}
