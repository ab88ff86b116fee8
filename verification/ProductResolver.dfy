/** Resolving an ERP line against the specification sheet through three prebuilt maps. */
module ProductResolver {
  import opened Option
  import opened Grouping
  import opened Lists

  datatype Row = Row(spec: string, itemCode: string, productName: string, weight: real)

  datatype MatchedOn = SPEC_AND_NAME | NAME | SPEC | NONE

  datatype Resolved = Resolved(productId: Option<string>, productName: string, weight: Option<real>, matchedOn: MatchedOn)

  /** `normalise`: trims, folds case and full-width brackets, and collapses white space. */
  type Normaliser = string -> string

  const SEPARATOR := "||"

  /** The key of the pair map. */
  function Composite(spec: string, name: string): string {
    spec + SEPARATOR + name
  }

  function PairKey(norm: Normaliser): Row -> string {
    (r: Row) => Composite(norm(r.spec), norm(r.productName))
  }

  function NameKey(norm: Normaliser): Row -> string {
    (r: Row) => norm(r.productName)
  }

  function SpecKey(norm: Normaliser): Row -> string {
    (r: Row) => norm(r.spec)
  }

  function ItemCode(r: Row): string {
    r.itemCode
  }

  function Weight(r: Row): real {
    r.weight
  }

  /** What all the rows pick, if they all pick the same. */
  function Unique<T(==)>(rows: seq<Row>, pick: Row -> T): Option<T> {
    if |set r | r in rows :: pick(r)| == 1 && rows != [] then Some(pick(rows[0])) else None
  }

  /** The precedence the maps and the scan share: exact pair, unambiguous name, spec, nothing. */
  function Choose(exact: Option<Row>, named: seq<Row>, specced: seq<Row>, description: Option<string>): Resolved {
    var productName := description.GetOr("Unspecified");
    var code, weight := Unique(named, ItemCode), Unique(named, Weight);
    if exact.Some? then Resolved(Some(exact.value.itemCode), productName, Some(exact.value.weight), SPEC_AND_NAME)
    else if code.Some? && weight.Some? then Resolved(code, productName, weight, NAME)
    else if specced != [] then Resolved(Unique(specced, ItemCode), productName, Unique(specced, Weight), SPEC)
    else Resolved(None, productName, None, NONE)
  }

  // ---------------------------------------------------------------- reference: a scan of the sheet

  function LastOf(rows: seq<Row>): Option<Row> {
    if rows == [] then None else Some(rows[|rows| - 1])
  }

  /** The rows whose normalised spec and name are both the ones asked for. */
  function RowsOfPair(norm: Normaliser, sheet: seq<Row>, spec: string, name: string): seq<Row> {
    if sheet == [] then []
    else
      var rest, r := RowsOfPair(norm, sheet[..|sheet| - 1], spec, name), sheet[|sheet| - 1];
      if norm(r.spec) == spec && norm(r.productName) == name then rest + [r] else rest
  }

  function Scan(norm: Normaliser, sheet: seq<Row>, description: Option<string>, specification: Option<string>): Resolved {
    var name, spec := norm(description.GetOr("")), norm(specification.GetOr(""));
    Choose(LastOf(RowsOfPair(norm, sheet, spec, name)), Group(NameKey(norm), name, sheet), Group(SpecKey(norm), spec, sheet), description)
  }

  // ---------------------------------------------------------------- the maps

  function Lookup(rows: map<string, seq<Row>>, key: string): seq<Row> {
    if key in rows then rows[key] else []
  }

  /** What the map lookups yield, in terms of the sheet the maps were built from. */
  function ByMaps(norm: Normaliser, sheet: seq<Row>, description: Option<string>, specification: Option<string>): Resolved {
    var name, spec := norm(description.GetOr("")), norm(specification.GetOr(""));
    Choose(LastOf(Group(PairKey(norm), Composite(spec, name), sheet)), Group(NameKey(norm), name, sheet), Group(SpecKey(norm), spec, sheet),
           description)
  }

  class Resolver {
    const norm: Normaliser
    ghost const sheet: seq<Row>
    var bySpecAndName: map<string, Row>
    var byName: map<string, seq<Row>>
    var bySpec: map<string, seq<Row>>

    /** Each map answers for every key exactly as filtering the sheet would. */
    ghost predicate Valid()
      reads this
    {
      Indexes(bySpecAndName, byName, bySpec, norm, sheet)
    }

    constructor (norm: Normaliser, sheet: seq<Row>)
      ensures Valid() && this.norm == norm && this.sheet == sheet
    {
      var pairs: map<string, Row>, names: map<string, seq<Row>>, specs: map<string, seq<Row>> := map[], map[], map[];
      for i := 0 to |sheet|
        invariant Indexes(pairs, names, specs, norm, sheet[..i])
      {
        var row := sheet[i];
        IndexesNext(pairs, names, specs, norm, sheet[..i], row);
        assert sheet[..i + 1] == sheet[..i] + [row];
        pairs := pairs[Composite(norm(row.spec), norm(row.productName)) := row];
        var name := norm(row.productName);
        names := names[name := Lookup(names, name) + [row]];
        var spec := norm(row.spec);
        specs := specs[spec := Lookup(specs, spec) + [row]];
      }
      assert sheet[..|sheet|] == sheet;
      this.norm, this.sheet := norm, sheet;
      bySpecAndName, byName, bySpec := pairs, names, specs;
    }

    method ResolveProduct(description: Option<string>, specification: Option<string>) returns (r: Resolved)
      requires Valid()
      ensures r == ByMaps(norm, sheet, description, specification)
    {
      var productName := description.GetOr("Unspecified");
      var name := norm(description.GetOr(""));
      var spec := norm(specification.GetOr(""));
      var key := Composite(spec, name);
      if key in bySpecAndName {
        var exact := bySpecAndName[key];
        return Resolved(Some(exact.itemCode), productName, Some(exact.weight), SPEC_AND_NAME);
      }
      var named := Lookup(byName, name);
      if named != [] {
        var code, weight := Unique(named, ItemCode), Unique(named, Weight);
        if code.Some? && weight.Some? {
          return Resolved(code, productName, weight, NAME);
        }
      }
      var specced := Lookup(bySpec, spec);
      if specced != [] {
        return Resolved(Unique(specced, ItemCode), productName, Unique(specced, Weight), SPEC);
      }
      r := Resolved(None, productName, None, NONE);
    }
  }

  ghost predicate IndexesPairs(pairs: map<string, Row>, norm: Normaliser, sheet: seq<Row>) {
    forall k :: LastOf(Group(PairKey(norm), k, sheet)) == if k in pairs then Some(pairs[k]) else None
  }

  ghost predicate IndexesLists(lists: map<string, seq<Row>>, key: Row -> string, sheet: seq<Row>) {
    forall k :: Lookup(lists, k) == Group(key, k, sheet)
  }

  ghost predicate Indexes(
    pairs: map<string, Row>, names: map<string, seq<Row>>, specs: map<string, seq<Row>>, norm: Normaliser, sheet: seq<Row>)
  {
    IndexesPairs(pairs, norm, sheet) && IndexesLists(names, NameKey(norm), sheet) && IndexesLists(specs, SpecKey(norm), sheet)
  }

  lemma IndexesNext(
    pairs: map<string, Row>, names: map<string, seq<Row>>, specs: map<string, seq<Row>>, norm: Normaliser, sheet: seq<Row>, row: Row)
    requires Indexes(pairs, names, specs, norm, sheet)
    ensures var name, spec := norm(row.productName), norm(row.spec);
            Indexes(pairs[Composite(spec, name) := row], names[name := Lookup(names, name) + [row]], specs[spec := Lookup(specs, spec) + [row]],
                    norm, sheet + [row])
  {
    PairsNext(pairs, norm, sheet, row);
    ListsNext(names, NameKey(norm), sheet, row);
    ListsNext(specs, SpecKey(norm), sheet, row);
  }

  lemma PairsNext(pairs: map<string, Row>, norm: Normaliser, sheet: seq<Row>, row: Row)
    requires IndexesPairs(pairs, norm, sheet)
    ensures IndexesPairs(pairs[PairKey(norm)(row) := row], norm, sheet + [row])
  {
    var after := pairs[PairKey(norm)(row) := row];
    forall k
      ensures LastOf(Group(PairKey(norm), k, sheet + [row])) == if k in after then Some(after[k]) else None
    {
      GroupAppend(PairKey(norm), k, sheet, row);
      assert LastOf(Group(PairKey(norm), k, sheet)) == if k in pairs then Some(pairs[k]) else None;
    }
  }

  lemma ListsNext(lists: map<string, seq<Row>>, key: Row -> string, sheet: seq<Row>, row: Row)
    requires IndexesLists(lists, key, sheet)
    ensures IndexesLists(lists[key(row) := Lookup(lists, key(row)) + [row]], key, sheet + [row])
  {
    var after := lists[key(row) := Lookup(lists, key(row)) + [row]];
    forall k
      ensures Lookup(after, k) == Group(key, k, sheet + [row])
    {
      GroupAppend(key, k, sheet, row);
      assert Lookup(lists, k) == Group(key, k, sheet);
    }
  }

  // ---------------------------------------------------------------- when the maps equal the scan

  /** A string `normalise` leaves as it is. */
  predicate Normal(norm: Normaliser, s: string) {
    norm(s) == s
  }

  /** Whether `key` can be cut at `i` into a normal spec, the separator and a normal name. */
  predicate CutsAt(norm: Normaliser, key: string, i: nat) {
    i + 2 <= |key| && key[i..i + 2] == SEPARATOR && Normal(norm, key[..i]) && Normal(norm, key[i + 2..])
  }

  /**
   * The pair key of a query can be read in one way only. A caller can check
   * this before the call: it looks at the query's own key and nothing else.
   */
  predicate OneReading(norm: Normaliser, spec: string, name: string) {
    forall i | 0 <= i <= |Composite(spec, name)| && i != |spec| :: !CutsAt(norm, Composite(spec, name), i)
  }

  lemma CompositeParts(spec: string, name: string)
    ensures var key := Composite(spec, name);
            |key| == |spec| + 2 + |name| && key[..|spec|] == spec && key[|spec|..|spec| + 2] == SEPARATOR && key[|spec| + 2..] == name
  {
  }

  /** With one reading, two normal pairs with the same key are the same pair. */
  lemma OneReadingSeparates(norm: Normaliser, spec: string, name: string, spec': string, name': string)
    requires OneReading(norm, spec, name) && Normal(norm, spec') && Normal(norm, name')
    ensures Composite(spec', name') == Composite(spec, name) <==> spec' == spec && name' == name
  {
    CompositeParts(spec, name);
    CompositeParts(spec', name');
    assert |spec'| <= |Composite(spec, name)| && |spec'| != |spec| ==> !CutsAt(norm, Composite(spec, name), |spec'|);
  }

  lemma {:induction false} PairGroupIsPair(norm: Normaliser, sheet: seq<Row>, spec: string, name: string)
    requires forall s :: Normal(norm, norm(s))
    requires OneReading(norm, spec, name)
    ensures Group(PairKey(norm), Composite(spec, name), sheet) == RowsOfPair(norm, sheet, spec, name)
  {
    if sheet != [] {
      PairGroupIsPair(norm, sheet[..|sheet| - 1], spec, name);
      var r := sheet[|sheet| - 1];
      OneReadingSeparates(norm, spec, name, norm(r.spec), norm(r.productName));
    }
  }

  /** A sheet of one row that the other reading of the key describes. */
  function Impostor(key: string, i: nat): seq<Row>
    requires i + 2 <= |key|
  {
    [Row(key[..i], "code", key[i + 2..], 1.0)]
  }

  lemma ImpostorMatches(norm: Normaliser, spec: string, name: string, i: nat)
    requires i != |spec| && CutsAt(norm, Composite(spec, name), i)
    ensures var key := Composite(spec, name);
            Group(PairKey(norm), key, Impostor(key, i)) == Impostor(key, i) && RowsOfPair(norm, Impostor(key, i), spec, name) == []
  {
    var key := Composite(spec, name);
    var row := Row(key[..i], "code", key[i + 2..], 1.0);
    CompositeParts(spec, name);
    CompositeParts(key[..i], key[i + 2..]);
    assert key == key[..i] + key[i..i + 2] + key[i + 2..];
    GroupAppend(PairKey(norm), key, [], row);
    assert [] + [row] == [row];
    assert [row][..0] == [];
  }

  lemma OneReadingScans(norm: Normaliser, sheet: seq<Row>, description: Option<string>, specification: Option<string>)
    requires forall s :: Normal(norm, norm(s))
    requires OneReading(norm, norm(specification.GetOr("")), norm(description.GetOr("")))
    ensures ByMaps(norm, sheet, description, specification) == Scan(norm, sheet, description, specification)
  {
    PairGroupIsPair(norm, sheet, norm(specification.GetOr("")), norm(description.GetOr("")));
  }

  lemma SecondReadingMisleads(norm: Normaliser, description: Option<string>, specification: Option<string>, i: nat)
    requires var name, spec := norm(description.GetOr("")), norm(specification.GetOr(""));
             i != |spec| && CutsAt(norm, Composite(spec, name), i)
    ensures var key := Composite(norm(specification.GetOr("")), norm(description.GetOr("")));
            ByMaps(norm, Impostor(key, i), description, specification).matchedOn == SPEC_AND_NAME &&
            Scan(norm, Impostor(key, i), description, specification).matchedOn != SPEC_AND_NAME
  {
    ImpostorMatches(norm, norm(specification.GetOr("")), norm(description.GetOr("")), i);
  }

  /**
   * The maps answer like a scan for every sheet exactly when the query's pair
   * key has one reading; where it has two, a sheet exists on which the maps
   * report an exact match for a row that is neither the spec nor the name asked for.
   */
  lemma MapsEqualScan(norm: Normaliser, description: Option<string>, specification: Option<string>)
    requires forall s :: Normal(norm, norm(s))
    ensures (forall sheet :: ByMaps(norm, sheet, description, specification) == Scan(norm, sheet, description, specification)) <==>
            OneReading(norm, norm(specification.GetOr("")), norm(description.GetOr("")))
  {
    var name, spec := norm(description.GetOr("")), norm(specification.GetOr(""));
    if OneReading(norm, spec, name) {
      forall sheet
        ensures ByMaps(norm, sheet, description, specification) == Scan(norm, sheet, description, specification)
      {
        OneReadingScans(norm, sheet, description, specification);
      }
    } else {
      var i :| 0 <= i <= |Composite(spec, name)| && i != |spec| && CutsAt(norm, Composite(spec, name), i);
      SecondReadingMisleads(norm, description, specification, i);
    }
  }

  /** A query with no bar in its spec or its name always has one reading. */
  lemma NoBarOneReading(norm: Normaliser, spec: string, name: string)
    requires '|' !in spec && '|' !in name
    ensures OneReading(norm, spec, name)
  {
    var key := Composite(spec, name);
    CompositeParts(spec, name);
    forall i | 0 <= i <= |key| && i != |spec|
      ensures !CutsAt(norm, key, i)
    {
      if i < |spec| {
        assert key[i] == spec[i];
      } else if i + 2 <= |key| {
        assert key[i..i + 2][1] == key[i + 1] == name[i - |spec| - 1];
      }
    }
  }

  /** A row whose normalised spec and name carry no bar: so is every row of the sheet shipped with the portal. */
  predicate Barless(norm: Normaliser, r: Row) {
    '|' !in norm(r.spec) && '|' !in norm(r.productName)
  }

  /** The key of a pair without bars shows where its spec ends, whatever key it is compared with. */
  lemma BarlessKeySeparates(spec: string, name: string, spec': string, name': string)
    requires '|' !in spec' && '|' !in name'
    ensures Composite(spec', name') == Composite(spec, name) <==> spec' == spec && name' == name
  {
    var key, other := Composite(spec', name'), Composite(spec, name);
    CompositeParts(spec, name);
    CompositeParts(spec', name');
    forall i | 0 <= i < |key| && i != |spec'| && i != |spec'| + 1
      ensures key[i] != '|'
    {
      assert key[i] == if i < |spec'| then spec'[i] else name'[i - |spec'| - 2];
    }
    assert other[|spec|] == other[|spec|..|spec| + 2][0] == '|';
    assert other[|spec| + 1] == other[|spec|..|spec| + 2][1] == '|';
  }

  lemma {:induction false} BarlessPairGroup(norm: Normaliser, sheet: seq<Row>, spec: string, name: string)
    requires forall r :: r in sheet ==> Barless(norm, r)
    ensures Group(PairKey(norm), Composite(spec, name), sheet) == RowsOfPair(norm, sheet, spec, name)
  {
    if sheet != [] {
      var init, r := sheet[..|sheet| - 1], sheet[|sheet| - 1];
      assert r in sheet && forall q :: q in init ==> q in sheet;
      BarlessPairGroup(norm, init, spec, name);
      BarlessKeySeparates(spec, name, norm(r.spec), norm(r.productName));
    }
  }

  /** On a sheet without bars the maps answer every query like a scan, bars in the query or not, under any normaliser. */
  lemma BarlessSheetNeverCollides(norm: Normaliser, sheet: seq<Row>, description: Option<string>, specification: Option<string>)
    requires forall r :: r in sheet ==> Barless(norm, r)
    ensures ByMaps(norm, sheet, description, specification) == Scan(norm, sheet, description, specification)
  {
    BarlessPairGroup(norm, sheet, norm(specification.GetOr("")), norm(description.GetOr("")));
  }

  /** On another sheet, a spec that ends in a bar already collides, under any normaliser that keeps these four short strings. */
  lemma CollisionExample(norm: Normaliser)
    requires Normal(norm, "1l") && Normal(norm, "1l|") && Normal(norm, "water") && Normal(norm, "|water")
    ensures var sheet := [Row("1l|", "101", "water", 9.0)];
            ByMaps(norm, sheet, Some("|water"), Some("1l")) == Resolved(Some("101"), "|water", Some(9.0), SPEC_AND_NAME) &&
            Scan(norm, sheet, Some("|water"), Some("1l")) == Resolved(None, "|water", None, NONE)
  {
    var row := Row("1l|", "101", "water", 9.0);
    GroupAppend(PairKey(norm), Composite("1l", "|water"), [], row);
    GroupAppend(NameKey(norm), "|water", [], row);
    GroupAppend(SpecKey(norm), "1l", [], row);
    assert [] + [row] == [row];
    assert [row][..0] == [];
    assert "1l|" + SEPARATOR + "water" == "1l" + SEPARATOR + "|water";
  }

  // ---------------------------------------------------------------- the sheet's order

  lemma UniqueByMembers<T>(xs: seq<Row>, ys: seq<Row>, pick: Row -> T)
    requires forall r :: r in xs <==> r in ys
    ensures Unique(xs, pick) == Unique(ys, pick)
  {
    var vs, ws := set r | r in xs :: pick(r), set r | r in ys :: pick(r);
    assert vs == ws;
    if |vs| == 1 && xs != [] && ys != [] {
      assert xs[0] in xs && ys[0] in ys;
      assert pick(xs[0]) in vs && pick(ys[0]) in vs;
      OnlyOne(vs, pick(xs[0]), pick(ys[0]));
    }
    if xs != [] {
      assert xs[0] in ys;
    }
    if ys != [] {
      assert ys[0] in xs;
    }
  }

  lemma OnlyOne<T>(s: set<T>, a: T, b: T)
    requires |s| == 1 && a in s && b in s
    ensures a == b
  {
    assert |s - {a}| == 0;
  }

  /**
   * Reordering the sheet changes no NAME, SPEC or unmatched answer, and changes
   * no exact answer either so long as rows with the same key agree.
   */
  lemma SheetOrderDoesNotMatter(norm: Normaliser, sheet: seq<Row>, other: seq<Row>, description: Option<string>, specification: Option<string>)
    requires multiset(sheet) == multiset(other)
    ensures ByMaps(norm, sheet, description, specification).matchedOn == ByMaps(norm, other, description, specification).matchedOn
    ensures ByMaps(norm, sheet, description, specification).matchedOn != SPEC_AND_NAME ==>
              ByMaps(norm, sheet, description, specification) == ByMaps(norm, other, description, specification)
    ensures (forall r, q :: r in sheet && q in sheet && PairKey(norm)(r) == PairKey(norm)(q) ==>
               r.itemCode == q.itemCode && r.weight == q.weight) ==>
              ByMaps(norm, sheet, description, specification) == ByMaps(norm, other, description, specification)
  {
    var name, spec := norm(description.GetOr("")), norm(specification.GetOr(""));
    SameMembers(sheet, other);
    GroupSameRows(PairKey(norm), Composite(spec, name), sheet, other);
    GroupSameRows(NameKey(norm), name, sheet, other);
    GroupSameRows(SpecKey(norm), spec, sheet, other);
    UniqueByMembers(Group(NameKey(norm), name, sheet), Group(NameKey(norm), name, other), ItemCode);
    UniqueByMembers(Group(NameKey(norm), name, sheet), Group(NameKey(norm), name, other), Weight);
    UniqueByMembers(Group(SpecKey(norm), spec, sheet), Group(SpecKey(norm), spec, other), ItemCode);
    UniqueByMembers(Group(SpecKey(norm), spec, sheet), Group(SpecKey(norm), spec, other), Weight);
    LastIsMember(PairKey(norm), Composite(spec, name), sheet);
    LastIsMember(PairKey(norm), Composite(spec, name), other);
  }

  lemma GroupSameRows(key: Row -> string, k: string, sheet: seq<Row>, other: seq<Row>)
    requires forall r :: r in sheet <==> r in other
    ensures forall r :: r in Group(key, k, sheet) <==> r in Group(key, k, other)
    ensures Group(key, k, sheet) == [] <==> Group(key, k, other) == []
  {
    GroupMembers(key, k, sheet);
    GroupMembers(key, k, other);
    if Group(key, k, sheet) != [] {
      assert Group(key, k, sheet)[0] in Group(key, k, other);
    }
    if Group(key, k, other) != [] {
      assert Group(key, k, other)[0] in Group(key, k, sheet);
    }
  }

  lemma LastIsMember(key: Row -> string, k: string, sheet: seq<Row>)
    ensures var last := LastOf(Group(key, k, sheet));
            last.Some? ==> last.value in sheet && key(last.value) == k
  {
    GroupMembers(key, k, sheet);
  }

  // ---------------------------------------------------------------- the precedence, on the sheet's rows

  /** The last row of the sheet with this spec and this name, both compared normalised. */
  ghost predicate IsLastOfPair(norm: Normaliser, sheet: seq<Row>, spec: string, name: string, i: nat) {
    i < |sheet| && norm(sheet[i].spec) == spec && norm(sheet[i].productName) == name &&
    forall j :: i < j < |sheet| ==> !(norm(sheet[j].spec) == spec && norm(sheet[j].productName) == name)
  }

  /** There are such rows, and they all say this. */
  ghost predicate AllSay<T(!new)>(rows: set<Row>, pick: Row -> T, value: T) {
    rows != {} && forall r :: r in rows ==> pick(r) == value
  }

  ghost predicate IsExact(norm: Normaliser, sheet: seq<Row>, spec: string, name: string, exact: Option<Row>) {
    if exact.Some? then exists i: nat :: IsLastOfPair(norm, sheet, spec, name, i) && sheet[i] == exact.value
    else forall r :: r in sheet ==> !(norm(r.spec) == spec && norm(r.productName) == name)
  }

  /**
   * The row of the spec and the name; failing that, the rows of the name where
   * they agree on code and weight; failing that, whatever the rows of the spec
   * agree on; and otherwise nothing.
   */
  ghost predicate IsChosen(exact: Option<Row>, named: set<Row>, specced: set<Row>, r: Resolved) {
    if exact.Some? then
      r.matchedOn == SPEC_AND_NAME && r.productId == Some(exact.value.itemCode) && r.weight == Some(exact.value.weight)
    else if exists c, w :: AllSay(named, ItemCode, c) && AllSay(named, Weight, w) then
      r.matchedOn == NAME && r.productId.Some? && r.weight.Some? &&
      AllSay(named, ItemCode, r.productId.value) && AllSay(named, Weight, r.weight.value)
    else if specced != {} then
      r.matchedOn == SPEC && (forall c :: r.productId == Some(c) <==> AllSay(specced, ItemCode, c)) &&
      forall w :: r.weight == Some(w) <==> AllSay(specced, Weight, w)
    else r.matchedOn == NONE && r.productId == None && r.weight == None
  }

  /** What a line should resolve to on this sheet, under the description's own name. */
  ghost predicate IsAnswer(norm: Normaliser, sheet: seq<Row>, description: Option<string>, specification: Option<string>, r: Resolved) {
    var name, spec := norm(description.GetOr("")), norm(specification.GetOr(""));
    var named, specced := set x | x in sheet && norm(x.productName) == name, set x | x in sheet && norm(x.spec) == spec;
    r.productName == description.GetOr("Unspecified") &&
    exists exact :: IsExact(norm, sheet, spec, name, exact) && IsChosen(exact, named, specced, r)
  }

  lemma UniqueMeans<T(!new)>(rows: seq<Row>, pick: Row -> T, all: set<Row>, v: T)
    requires all == set r | r in rows
    ensures Unique(rows, pick) == Some(v) <==> AllSay(all, pick, v)
  {
    var vs := set r | r in rows :: pick(r);
    if rows == [] {
      assert all == {};
    } else {
      assert rows[0] in all && pick(rows[0]) in vs;
      if |vs| == 1 {
        forall r | r in rows
          ensures pick(r) == pick(rows[0])
        {
          assert pick(r) in vs;
          OnlyOne(vs, pick(r), pick(rows[0]));
        }
      }
      if AllSay(all, pick, v) {
        assert vs == {v};
      }
    }
  }

  lemma GroupIsSet(key: Row -> string, k: string, sheet: seq<Row>, all: set<Row>)
    requires all == set r | r in sheet && key(r) == k
    ensures all == set r | r in Group(key, k, sheet)
    ensures Group(key, k, sheet) == [] <==> all == {}
  {
    GroupMembers(key, k, sheet);
    if Group(key, k, sheet) != [] {
      assert Group(key, k, sheet)[0] in all;
    }
  }

  lemma ChoiceIsChosen(exact: Option<Row>, named: seq<Row>, specced: seq<Row>, description: Option<string>, ns: set<Row>, ss: set<Row>)
    requires ns == (set r | r in named) && ss == (set r | r in specced) && (specced == [] <==> ss == {})
    ensures IsChosen(exact, ns, ss, Choose(exact, named, specced, description))
  {
    forall c
      ensures Unique(named, ItemCode) == Some(c) <==> AllSay(ns, ItemCode, c)
      ensures Unique(specced, ItemCode) == Some(c) <==> AllSay(ss, ItemCode, c)
    {
      UniqueMeans(named, ItemCode, ns, c);
      UniqueMeans(specced, ItemCode, ss, c);
    }
    forall w
      ensures Unique(named, Weight) == Some(w) <==> AllSay(ns, Weight, w)
      ensures Unique(specced, Weight) == Some(w) <==> AllSay(ss, Weight, w)
    {
      UniqueMeans(named, Weight, ns, w);
      UniqueMeans(specced, Weight, ss, w);
    }
  }

  lemma {:induction false} LastIsExact(norm: Normaliser, sheet: seq<Row>, spec: string, name: string)
    ensures IsExact(norm, sheet, spec, name, LastOf(RowsOfPair(norm, sheet, spec, name)))
  {
    if sheet != [] {
      var init, r := sheet[..|sheet| - 1], sheet[|sheet| - 1];
      assert sheet == init + [r];
      LastIsExact(norm, init, spec, name);
      if norm(r.spec) == spec && norm(r.productName) == name {
        assert IsLastOfPair(norm, sheet, spec, name, |init|);
      } else if i: nat :| IsLastOfPair(norm, init, spec, name, i) && LastOf(RowsOfPair(norm, init, spec, name)) == Some(init[i]) {
        assert IsLastOfPair(norm, sheet, spec, name, i);
      }
    }
  }

  /** The scan answers so on every sheet, and with it the maps wherever they equal the scan. */
  lemma ScanAnswers(norm: Normaliser, sheet: seq<Row>, description: Option<string>, specification: Option<string>)
    ensures IsAnswer(norm, sheet, description, specification, Scan(norm, sheet, description, specification))
  {
    var name, spec := norm(description.GetOr("")), norm(specification.GetOr(""));
    var named, specced := set x | x in sheet && norm(x.productName) == name, set x | x in sheet && norm(x.spec) == spec;
    LastIsExact(norm, sheet, spec, name);
    GroupIsSet(NameKey(norm), name, sheet, named);
    GroupIsSet(SpecKey(norm), spec, sheet, specced);
    ChoiceIsChosen(LastOf(RowsOfPair(norm, sheet, spec, name)), Group(NameKey(norm), name, sheet), Group(SpecKey(norm), spec, sheet),
                   description, named, specced);
  }

  /** On a sheet without bars, as the one shipped, that is what the maps answer to every line. */
  lemma MapsAnswer(norm: Normaliser, sheet: seq<Row>, description: Option<string>, specification: Option<string>)
    requires forall r :: r in sheet ==> Barless(norm, r)
    ensures IsAnswer(norm, sheet, description, specification, ByMaps(norm, sheet, description, specification))
  {
    BarlessSheetNeverCollides(norm, sheet, description, specification);
    ScanAnswers(norm, sheet, description, specification);
  }
}
