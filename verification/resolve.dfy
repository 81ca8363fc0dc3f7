/** Translating item ids to display names: a linear scan of the translation
    table in which a later match overwrites an earlier one. Equipped slots
    scan with an elif chain that reaches the slot's gem only on entries
    that do not match the slot's own item. */
module Resolve {
  import opened Wrappers
  import opened Items

  /** One `translation["items"]` record. */
  datatype Translation = Translation(id: Id, name: string)

  /** One `translation["legendaryGems"]` value. */
  datatype LegendaryGem = LegendaryGem(id: Id, name: string)

  /** The translations file. */
  datatype Translations = Translations(items: seq<Translation>, legendaryGems: map<string, LegendaryGem>)

  /** `i` is the last index of `table` whose id is `id`. */
  predicate LastEntryFor(table: seq<Translation>, id: Id, i: int) {
    && 0 <= i < |table|
    && table[i].id == id
    && forall j :: i < j < |table| ==> table[j].id != id
  }

  /** The scan of the cube loop: every entry whose id is `id` overwrites
      `name`. */
  function TranslateName(table: seq<Translation>, id: Id, name: Option<string>): Option<string> {
    if table == [] then name
    else TranslateName(table[1..], id, if table[0].id == id then Some(table[0].name) else name)
  }

  /** The scan yields the name of the last entry with the id, and leaves
      the name as it was when no entry has the id. */
  lemma {:induction false} TranslateNameIsLastMatch(table: seq<Translation>, id: Id, name: Option<string>)
    ensures (forall i :: 0 <= i < |table| ==> table[i].id != id) ==> TranslateName(table, id, name) == name
    ensures forall i :: LastEntryFor(table, id, i) ==> TranslateName(table, id, name) == Some(table[i].name)
  {
    if table != [] {
      var next := if table[0].id == id then Some(table[0].name) else name;
      TranslateNameIsLastMatch(table[1..], id, next);
      forall i | LastEntryFor(table, id, i)
        ensures TranslateName(table, id, name) == Some(table[i].name)
      {
        if i == 0 {
          assert forall j :: 0 <= j < |table[1..]| ==> table[1..][j].id != id by {
            forall j | 0 <= j < |table[1..]|
              ensures table[1..][j].id != id
            {
              assert table[1..][j] == table[j + 1];
            }
          }
        } else {
          assert LastEntryFor(table[1..], id, i - 1);
        }
      }
      if forall i :: 0 <= i < |table| ==> table[i].id != id {
        assert forall i :: 0 <= i < |table[1..]| ==> table[1..][i] == table[i + 1];
      }
    }
  }

  /** The scan ends with a name exactly when it started with one or some
      entry has the id. */
  lemma {:induction false} TranslateNameFound(table: seq<Translation>, id: Id, name: Option<string>)
    ensures TranslateName(table, id, name).Some?
        <==> name.Some? || exists i :: 0 <= i < |table| && table[i].id == id
  {
    if table != [] {
      var next := if table[0].id == id then Some(table[0].name) else name;
      TranslateNameFound(table[1..], id, next);
      assert forall i :: 0 <= i < |table[1..]| ==> table[1..][i] == table[i + 1];
      if exists i :: 0 <= i < |table| && table[i].id == id {
        var i :| 0 <= i < |table| && table[i].id == id;
        if i > 0 {
          assert table[1..][i - 1].id == id;
        }
      }
    }
  }

  /** The cube loop: each cube id gets the name of its last matching
      translation, or none when no entry has the id. */
  function TranslateCube(table: seq<Translation>, ids: seq<Id>): (r: seq<(Id, Option<string>)>)
    ensures |r| == |ids|
    ensures forall i :: 0 <= i < |ids| ==> r[i].0 == ids[i]
    ensures forall i :: 0 <= i < |ids| ==>
      (r[i].1.Some? <==> exists k :: 0 <= k < |table| && table[k].id == ids[i])
    ensures forall i, k :: 0 <= i < |ids| && LastEntryFor(table, ids[i], k) ==> r[i].1 == Some(table[k].name)
  {
    if ids == [] then []
    else
      TranslateNameIsLastMatch(table, ids[0], None);
      TranslateNameFound(table, ids[0], None);
      var rest := TranslateCube(table, ids[1..]);
      assert forall i :: 1 <= i < |ids| ==> ids[i] == ids[1..][i - 1];
      [(ids[0], TranslateName(table, ids[0], None))] + rest
  }

  // ---------------------------------------------------------------------
  // Equipped slots

  /** An equipped slot during translation: its item, the name found so far,
      and its gem dict. */
  datatype Slot = Slot(slot: string, id: Id, name: Option<string>, gem: Option<GemRef>)

  /** One pass of the inner loop for an equipped slot. An entry matching
      the item names the item; otherwise a gem with an id takes the entry's
      name when the ids agree, and a gem with only a name is replaced by
      its legendary-gem record, which gives it an id from then on. */
  function ResolveStep(t: Translation, gems: map<string, LegendaryGem>, s: Slot): (r: Result<Slot>)
    ensures r.Ok? ==> r.value.slot == s.slot && r.value.id == s.id
    ensures r.Err? <==> s.id != t.id && s.gem.Some? && s.gem.value.ByName? && s.gem.value.key !in gems
  {
    if s.id == t.id then Ok(s.(name := Some(t.name)))
    else
      match s.gem
      case None => Ok(s)
      case Some(ById(gid, _)) =>
        Ok(if gid == t.id then s.(gem := Some(ById(gid, Some(t.name)))) else s)
      case Some(ByName(key)) =>
        if key in gems then Ok(s.(gem := Some(ById(gems[key].id, Some(gems[key].name)))))
        else Err(KeyError(key))
  }

  /** The inner loop over the whole table for one equipped slot. */
  function ResolveSlot(table: seq<Translation>, gems: map<string, LegendaryGem>, s: Slot): Result<Slot> {
    if table == [] then Ok(s)
    else
      var s' :- ResolveStep(table[0], gems, s);
      ResolveSlot(table[1..], gems, s')
  }

  /** The index of the first entry that does not match the item, or the
      table's length. */
  function FirstOther(table: seq<Translation>, id: Id): (k: nat)
    ensures k <= |table|
    ensures forall i :: 0 <= i < k ==> table[i].id == id
    ensures k < |table| ==> table[k].id != id
  {
    if table == [] || table[0].id != id then 0
    else 1 + FirstOther(table[1..], id)
  }

  /** The gem under the elif chain, when it already has an id: entries
      matching the item never reach it, so it takes the name of the last
      entry with its id, unless that id is also the item's own. */
  function GemAfterScan(table: seq<Translation>, itemId: Id, gid: Id, name: Option<string>): GemRef {
    ById(gid, if gid == itemId then name else TranslateName(table, gid, name))
  }

  /** Resolving a slot never fails unless its gem is known only by name,
      and the item's name is always the one the cube scan would give it. */
  lemma {:induction false} ResolveSlotById(table: seq<Translation>, gems: map<string, LegendaryGem>, s: Slot)
    requires s.gem.None? || s.gem.value.ById?
    ensures ResolveSlot(table, gems, s).Ok?
    ensures ResolveSlot(table, gems, s).value.id == s.id
    ensures ResolveSlot(table, gems, s).value.slot == s.slot
    ensures ResolveSlot(table, gems, s).value.name == TranslateName(table, s.id, s.name)
    ensures s.gem.None? ==> ResolveSlot(table, gems, s).value.gem.None?
    ensures s.gem.Some? ==>
      ResolveSlot(table, gems, s).value.gem == Some(GemAfterScan(table, s.id, s.gem.value.id, s.gem.value.name))
  {
    if table != [] {
      var t := table[0];
      var s' := ResolveStep(t, gems, s).value;
      ResolveSlotById(table[1..], gems, s');
    }
  }

  /** A gem known only by name: it stays so while entries match the item;
      the first entry that does not match looks the name up in the
      legendary-gem table, failing with KeyError when it is absent, and
      from then on the gem behaves as one with an id. */
  lemma {:induction false} ResolveSlotByName(table: seq<Translation>, gems: map<string, LegendaryGem>, s: Slot)
    requires s.gem.Some? && s.gem.value.ByName?
    ensures var k := FirstOther(table, s.id);
      var key := s.gem.value.key;
      var r := ResolveSlot(table, gems, s);
      && (k == |table| ==> r == Ok(s.(name := TranslateName(table, s.id, s.name))))
      && (k < |table| && key !in gems ==> r == Err(KeyError(key)))
      && (k < |table| && key in gems ==>
            && r.Ok?
            && r.value.name == TranslateName(table, s.id, s.name)
            && r.value.gem == Some(GemAfterScan(table[k + 1..], s.id, gems[key].id, Some(gems[key].name))))
  {
    var key := s.gem.value.key;
    if table != [] {
      var t := table[0];
      if t.id == s.id {
        var s' := s.(name := Some(t.name));
        ResolveSlotByName(table[1..], gems, s');
        var k := FirstOther(table, s.id);
        assert k == 1 + FirstOther(table[1..], s.id);
        if k < |table| {
          assert table[1..][k - 1 + 1..] == table[k + 1..];
        }
      } else if key in gems {
        var s' := s.(gem := Some(ById(gems[key].id, Some(gems[key].name))));
        ResolveSlotById(table[1..], gems, s');
        TranslateNameIsLastMatch([t], s.id, s.name);
        TranslateNameSkip(t, table[1..], s.id, s.name);
      }
    }
  }

  /** An entry with another id does not change the scan for `id`. */
  lemma TranslateNameSkip(t: Translation, rest: seq<Translation>, id: Id, name: Option<string>)
    requires t.id != id
    ensures TranslateName([t] + rest, id, name) == TranslateName(rest, id, name)
  {
    assert ([t] + rest)[1..] == rest;
  }

  /** The equipped loop: every slot in order, the first failure ends it. */
  function ResolveEquipped(table: seq<Translation>, gems: map<string, LegendaryGem>, items: seq<EquippedItem>)
    : (r: Result<seq<Slot>>)
    ensures r.Ok? <==> forall i :: 0 <= i < |items| ==>
      ResolveSlot(table, gems, Slot(items[i].slot, items[i].id, None, items[i].gem)).Ok?
    ensures r.Ok? ==> |r.value| == |items|
    ensures r.Ok? ==> forall i :: 0 <= i < |items| ==>
      r.value[i] == ResolveSlot(table, gems, Slot(items[i].slot, items[i].id, None, items[i].gem)).value
  {
    if items == [] then Ok([])
    else
      var first :- ResolveSlot(table, gems, Slot(items[0].slot, items[0].id, None, items[0].gem));
      var rest :- ResolveEquipped(table, gems, items[1..]);
      assert forall i :: 1 <= i < |items| ==> items[i] == items[1..][i - 1];
      Ok([first] + rest)
  }
}
