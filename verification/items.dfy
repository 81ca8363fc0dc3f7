/** The chosen planner profile and what `main` extracts from it: the three
    Kanai's Cube ids and, per equipped slot, the item id and the gem
    reference found among the slot's gem entries. */
module Items {
  import opened Wrappers
  import opened Text

  /** A game item id, such as "Unique_Ring_107". */
  type Id = string

  /** The head of a list-shaped gem entry: only whether it is a string
      matters. */
  datatype Scalar = Str(s: string) | NotStr

  /** One element of a slot's `gems` array, by JSON shape. */
  datatype RawGem =
    | GemList(elems: seq<Scalar>)  // a JSON array
    | GemObject(id: Option<Id>)    // a JSON object and its "id" member
    | GemOther                     // any other JSON value

  /** An equipped slot of the planner data: its item id and optional gems. */
  datatype RawItem = RawItem(id: Id, gems: Option<seq<RawGem>>)

  datatype Kanai = Kanai(weapon: Id, armor: Id, jewelry: Id)

  /** One build profile; `items` lists the equipped slots in document order. */
  datatype Profile = Profile(name: string, className: string, kanai: Kanai, items: seq<(string, RawItem)>)

  /** A slot's `gem` dict once it is non-empty: with an `id` key (and
      perhaps a `name`), or with only a `name` key, which is the gem's key
      in the legendary-gem table. */
  datatype GemRef = ById(id: Id, name: Option<string>) | ByName(key: string)

  datatype EquippedItem = EquippedItem(slot: string, id: Id, gem: Option<GemRef>)

  /** `items` after extraction: cube ids in weapon, armor, jewelry order,
      and the equipped slots. */
  datatype Extracted = Extracted(cube: seq<Id>, equipped: seq<EquippedItem>)

  // ---------------------------------------------------------------------
  // "The last one wins"

  /** The last present element of `s`. */
  function LastSome<T>(s: seq<Option<T>>): (r: Option<T>)
    ensures r.None? <==> forall i :: 0 <= i < |s| ==> s[i].None?
    ensures r.Some? ==> exists i :: 0 <= i < |s| && s[i] == r
                                  && forall j :: i < j < |s| ==> s[j].None?
  {
    if s == [] then None
    else if Last(s).Some? then Last(s)
    else
      var r := LastSome(s[..|s| - 1]);
      assert forall i :: 0 <= i < |s| - 1 ==> s[..|s| - 1][i] == s[i];
      if r.Some? then
        LastSomeInit(s, s[..|s| - 1], r);
        r
      else r
  }

  lemma LastSomeInit<T>(s: seq<Option<T>>, init: seq<Option<T>>, r: Option<T>)
    requires |s| >= 1 && Last(s).None? && init == s[..|s| - 1]
    requires exists i :: 0 <= i < |init| && init[i] == r && forall j :: i < j < |init| ==> init[j].None?
    ensures exists i :: 0 <= i < |s| && s[i] == r && forall j :: i < j < |s| ==> s[j].None?
  {
    var i :| 0 <= i < |init| && init[i] == r && forall j :: i < j < |init| ==> init[j].None?;
    forall j | i < j < |s|
      ensures s[j].None?
    {
      if j < |init| {
        assert init[j] == s[j];
      }
    }
    assert s[i] == init[i];
  }

  /** `a` if present, otherwise `b`. */
  function Or<T>(a: Option<T>, b: Option<T>): Option<T> {
    if a.Some? then a else b
  }

  lemma {:induction false} LastSomeCons<T>(x: Option<T>, s: seq<Option<T>>)
    ensures LastSome([x] + s) == Or(LastSome(s), x)
    decreases |s|
  {
    var xs := [x] + s;
    if s != [] {
      assert Last(xs) == Last(s);
      if Last(s).None? {
        assert xs[..|xs| - 1] == [x] + s[..|s| - 1];
        LastSomeCons(x, s[..|s| - 1]);
      }
    }
  }

  // ---------------------------------------------------------------------
  // Gem extraction

  /** The name a gem entry supplies: the head of a list whose head is a string. */
  function NameOf(g: RawGem): Option<string> {
    if g.GemList? && |g.elems| > 0 && g.elems[0].Str? then Some(g.elems[0].s) else None
  }

  /** The id a gem entry supplies: the "id" of a JSON object. */
  function IdOf(g: RawGem): Option<Id> {
    if g.GemObject? then g.id else None
  }

  /** The entry neither indexes an empty list nor reads a missing "id". */
  predicate WellShaped(g: RawGem) {
    match g
    case GemList(elems) => elems != []
    case GemObject(id) => id.Some?
    case GemOther => true
  }

  function Names(gems: seq<RawGem>): seq<Option<string>> {
    seq(|gems|, i requires 0 <= i < |gems| => NameOf(gems[i]))
  }

  function Ids(gems: seq<RawGem>): seq<Option<Id>> {
    seq(|gems|, i requires 0 <= i < |gems| => IdOf(gems[i]))
  }

  /** The `gem` dict being built for one slot: the keys set so far. */
  datatype GemFields = GemFields(id: Option<Id>, name: Option<string>)

  /** One pass of the loop over a slot's gem entries: a list with a string
      head sets `name`, an object sets `id`, anything else is skipped. */
  function GemStep(f: GemFields, g: RawGem): (r: Result<GemFields>)
    ensures r.Ok? <==> WellShaped(g)
    ensures g.GemList? && r.Err? ==> r.error == IndexError
    ensures g.GemObject? && r.Err? ==> r.error == KeyError("id")
    ensures r.Ok? ==> r.value == GemFields(Or(IdOf(g), f.id), Or(NameOf(g), f.name))
  {
    match g
    case GemList(elems) =>
      if elems == [] then Err(IndexError)
      else if elems[0].Str? then Ok(f.(name := Some(elems[0].s)))
      else Ok(f)
    case GemObject(id) =>
      if id.None? then Err(KeyError("id")) else Ok(f.(id := id))
    case GemOther => Ok(f)
  }

  function ScanGems(gems: seq<RawGem>, f: GemFields): Result<GemFields> {
    if gems == [] then Ok(f)
    else
      var f' :- GemStep(f, gems[0]);
      ScanGems(gems[1..], f')
  }

  /** The scan keeps the last name and the last id it meets, and fails
      exactly when some entry is malformed. */
  lemma {:induction false} ScanGemsLast(gems: seq<RawGem>, f: GemFields)
    ensures ScanGems(gems, f).Ok? <==> forall i :: 0 <= i < |gems| ==> WellShaped(gems[i])
    ensures ScanGems(gems, f).Ok? ==>
      ScanGems(gems, f).value == GemFields(Or(LastSome(Ids(gems)), f.id), Or(LastSome(Names(gems)), f.name))
  {
    if gems != [] {
      var g := gems[0];
      var rest := gems[1..];
      assert Ids(gems) == [IdOf(g)] + Ids(rest);
      assert Names(gems) == [NameOf(g)] + Names(rest);
      LastSomeCons(IdOf(g), Ids(rest));
      LastSomeCons(NameOf(g), Names(rest));
      if WellShaped(g) {
        var f' := GemStep(f, g).value;
        ScanGemsLast(rest, f');
        assert forall i :: 0 <= i < |rest| ==> rest[i] == gems[i + 1];
      }
    }
  }

  /** The non-empty `gem` dict as a reference; `None` when it stayed empty
      and was deleted. */
  function ToRef(f: GemFields): Option<GemRef> {
    match f.id
    case Some(id) => Some(ById(id, f.name))
    case None => if f.name.Some? then Some(ByName(f.name.value)) else None
  }

  /** A slot's gem entries, where a missing `gems` key reads as none. */
  function GemEntries(item: RawItem): seq<RawGem> {
    item.gems.GetOr([])
  }

  /** The slot's gem: the last object supplies the id, the last list with a
      string head supplies the name, and there is no gem exactly when
      neither kind occurs. */
  function ExtractGem(item: RawItem): (r: Result<Option<GemRef>>)
    ensures r.Ok? <==> forall i :: 0 <= i < |GemEntries(item)| ==> WellShaped(GemEntries(item)[i])
    ensures r.Ok? ==>
      var id := LastSome(Ids(GemEntries(item)));
      var name := LastSome(Names(GemEntries(item)));
      && (id.Some? ==> r.value == Some(ById(id.value, name)))
      && (id.None? && name.Some? ==> r.value == Some(ByName(name.value)))
      && (r.value.None? <==> id.None? && name.None?)
  {
    ScanGemsLast(GemEntries(item), GemFields(None, None));
    var f :- ScanGems(GemEntries(item), GemFields(None, None));
    Ok(ToRef(f))
  }

  /** The loop over the profile's equipped slots, in document order. */
  function ExtractEquipped(slots: seq<(string, RawItem)>): (r: Result<seq<EquippedItem>>)
    ensures r.Ok? <==> forall i :: 0 <= i < |slots| ==> ExtractGem(slots[i].1).Ok?
    ensures r.Ok? ==> |r.value| == |slots|
    ensures r.Ok? ==> forall i :: 0 <= i < |slots| ==>
      r.value[i] == EquippedItem(slots[i].0, slots[i].1.id, ExtractGem(slots[i].1).value)
  {
    if slots == [] then Ok([])
    else
      var gem :- ExtractGem(slots[0].1);
      var rest :- ExtractEquipped(slots[1..]);
      assert forall i :: 1 <= i < |slots| ==> slots[i] == slots[1..][i - 1];
      Ok([EquippedItem(slots[0].0, slots[0].1.id, gem)] + rest)
  }

  /** Everything `main` extracts from the chosen profile. */
  function Extract(p: Profile): (r: Result<Extracted>)
    ensures r.Ok? <==> ExtractEquipped(p.items).Ok?
    ensures r.Ok? ==> r.value.cube == [p.kanai.weapon, p.kanai.armor, p.kanai.jewelry]
    ensures r.Ok? ==> r.value.equipped == ExtractEquipped(p.items).value
  {
    var equipped :- ExtractEquipped(p.items);
    Ok(Extracted([p.kanai.weapon, p.kanai.armor, p.kanai.jewelry], equipped))
  }
}
