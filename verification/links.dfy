/** Item URLs: the slug rule, the one special id, and `items_list`, the
    flat list of cube items, equipped items and gems that every later
    stage walks. */
module Links {
  import opened Wrappers
  import opened Text
  import opened Items
  import opened Resolve

  const BaseUrl: string := "https://eu.diablo3.blizzard.com/en-us/item/"

  /** The one id whose page suffix differs from the id. */
  const RemappedId: string := "P3_Unique_Ring_107"
  const RemappedSuffix: string := "Unique_Ring_107_x1"

  /** `handle_special_ids`. */
  function SpecialId(id: Id): Id {
    if id == RemappedId then RemappedSuffix else id
  }

  /** The remap moves exactly one id, and applying it twice changes
      nothing more. */
  lemma SpecialIdFixesAllButOne(id: Id)
    ensures SpecialId("P3_Unique_Ring_107") == "Unique_Ring_107_x1"
    ensures SpecialId(id) != id <==> id == RemappedId
    ensures SpecialId(SpecialId(id)) == SpecialId(id)
  {
  }

  // ---------------------------------------------------------------------
  // The slug

  /** Hyphens removed, then spaces turned into hyphens, then apostrophes
      removed, then lower case. */
  function Slug(name: string): string {
    Lower(ReplaceChar(ReplaceChar(ReplaceChar(name, '-', ""), ' ', "-"), '\'', ""))
  }

  /** What one character of the name becomes in the slug. */
  function SlugChar(c: char): string {
    if c == '-' || c == '\'' then ""
    else if c == ' ' then "-"
    else [LowerChar(c)]
  }

  /** The slug character by character. */
  function SlugByChar(name: string): string {
    if name == [] then [] else SlugChar(name[0]) + SlugByChar(name[1..])
  }

  lemma SlugAppend(a: string, b: string)
    ensures Slug(a + b) == Slug(a) + Slug(b)
  {
    ReplaceCharAppend(a, b, '-', "");
    var a1 := ReplaceChar(a, '-', "");
    var b1 := ReplaceChar(b, '-', "");
    ReplaceCharAppend(a1, b1, ' ', "-");
    var a2 := ReplaceChar(a1, ' ', "-");
    var b2 := ReplaceChar(b1, ' ', "-");
    ReplaceCharAppend(a2, b2, '\'', "");
    LowerAppend(ReplaceChar(a2, '\'', ""), ReplaceChar(b2, '\'', ""));
  }

  /** The three passes and the lower-casing amount to one independent
      rewrite per character. */
  lemma {:induction false} SlugIsByChar(name: string)
    ensures Slug(name) == SlugByChar(name)
  {
    if name != [] {
      assert name == [name[0]] + name[1..];
      SlugAppend([name[0]], name[1..]);
      SlugIsByChar(name[1..]);
      var c := name[0];
      assert ReplaceChar([c], '-', "") == (if c == '-' then "" else [c]);
    }
  }

  /** The slug has no apostrophe, no space and no upper-case letter, and
      since hyphens are removed before spaces become hyphens, it has as
      many hyphens as the name has spaces. */
  lemma SlugShape(name: string)
    ensures '\'' !in Slug(name)
    ensures ' ' !in Slug(name)
    ensures forall i :: 0 <= i < |Slug(name)| ==> !IsUpper(Slug(name)[i])
    ensures Count(Slug(name), '-') == Count(name, ' ')
  {
    SlugIsByChar(name);
    SlugByCharShape(name);
  }

  lemma {:induction false} SlugByCharShape(name: string)
    ensures '\'' !in SlugByChar(name) && ' ' !in SlugByChar(name)
    ensures forall i :: 0 <= i < |SlugByChar(name)| ==> !IsUpper(SlugByChar(name)[i])
    ensures Count(SlugByChar(name), '-') == Count(name, ' ')
  {
    if name != [] {
      var head := SlugChar(name[0]);
      var tail := SlugByChar(name[1..]);
      SlugByCharShape(name[1..]);
      CountAppend(head, tail, '-');
      assert Count(head, '-') == if name[0] == ' ' then 1 else 0;
      assert forall i :: 0 <= i < |head| ==> !IsUpper(head[i]);
      assert forall i :: 0 <= i < |head + tail| ==> (head + tail)[i] == if i < |head| then head[i] else tail[i - |head|];
    }
  }

  /** `base_url + slug + "-" + handle_special_ids(id)`. */
  function ItemUrl(name: string, id: Id): string {
    BaseUrl + Slug(name) + "-" + SpecialId(id)
  }

  /** Whatever the item's name, the page of `P3_Unique_Ring_107` ends in
      `-Unique_Ring_107_x1`. */
  lemma RemappedUrl(name: string)
    ensures var u := ItemUrl(name, "P3_Unique_Ring_107");
      |u| >= 19 && u[|u| - 19..] == "-Unique_Ring_107_x1"
  {
    var u := ItemUrl(name, "P3_Unique_Ring_107");
    assert u == (BaseUrl + Slug(name)) + "-Unique_Ring_107_x1";
  }

  /** For a fixed name the URL tells the (remapped) id apart, and for a
      fixed id it tells the slug apart. */
  lemma ItemUrlInjective(n1: string, n2: string, id1: Id, id2: Id)
    ensures n1 == n2 ==> (ItemUrl(n1, id1) == ItemUrl(n2, id2) <==> SpecialId(id1) == SpecialId(id2))
    ensures id1 == id2 ==> (ItemUrl(n1, id1) == ItemUrl(n2, id2) <==> Slug(n1) == Slug(n2))
  {
    var p1 := BaseUrl + Slug(n1) + "-";
    var p2 := BaseUrl + Slug(n2) + "-";
    if n1 == n2 && ItemUrl(n1, id1) == ItemUrl(n2, id2) {
      assert ItemUrl(n1, id1)[|p1|..] == SpecialId(id1);
      assert ItemUrl(n2, id2)[|p2|..] == SpecialId(id2);
    }
    if id1 == id2 && ItemUrl(n1, id1) == ItemUrl(n2, id2) {
      var k := |SpecialId(id1)| + 1;
      assert ItemUrl(n1, id1)[..|ItemUrl(n1, id1)| - k] == BaseUrl + Slug(n1);
      assert ItemUrl(n2, id2)[..|ItemUrl(n2, id2)| - k] == BaseUrl + Slug(n2);
      assert (BaseUrl + Slug(n1))[|BaseUrl|..] == Slug(n1);
      assert (BaseUrl + Slug(n2))[|BaseUrl|..] == Slug(n2);
    }
  }

  // ---------------------------------------------------------------------
  // items_list

  /** An entry of `items_list` before its URL is set: the dict's `id` and
      `name` keys, each possibly missing. */
  datatype Pending = Pending(id: Option<Id>, name: Option<string>)

  /** An entry of `items_list` with its URL. */
  datatype Linked = Linked(id: Id, name: string, url: string)

  /** The dict of a slot's gem: `{id, name?}` or `{name}`. */
  function GemPending(g: GemRef): Pending {
    match g
    case ById(id, name) => Pending(Some(id), name)
    case ByName(key) => Pending(None, Some(key))
  }

  /** The slots that have a gem, in slot order. */
  function SlotsWithGems(slots: seq<Slot>): (r: seq<Slot>)
    ensures forall s :: s in r <==> s in slots && s.gem.Some?
    ensures |r| <= |slots|
  {
    if slots == [] then []
    else (if slots[0].gem.Some? then [slots[0]] else []) + SlotsWithGems(slots[1..])
  }

  /** Keeping the slots with gems distributes over concatenation, so each
      such slot is kept once, in its place. */
  lemma {:induction false} SlotsWithGemsAppend(a: seq<Slot>, b: seq<Slot>)
    ensures SlotsWithGems(a + b) == SlotsWithGems(a) + SlotsWithGems(b)
  {
    if a == [] {
      assert a + b == b;
    } else {
      assert (a + b)[0] == a[0];
      assert (a + b)[1..] == a[1..] + b;
      SlotsWithGemsAppend(a[1..], b);
    }
  }

  /** A single slot is kept exactly when it has a gem. */
  lemma SlotsWithGemsOne(s: Slot)
    ensures SlotsWithGems([s]) == if s.gem.Some? then [s] else []
  {
    assert [s][1..] == [];
  }

  /** `items_list` before URLs: the cube items, then the equipped items, then
      the gems of the slots that have one, each group in slot order. */
  function ItemsList(cube: seq<(Id, Option<string>)>, slots: seq<Slot>): (r: seq<Pending>)
    ensures |r| == |cube| + |slots| + |SlotsWithGems(slots)|
    ensures forall i :: 0 <= i < |cube| ==> r[i] == Pending(Some(cube[i].0), cube[i].1)
    ensures forall i :: 0 <= i < |slots| ==> r[|cube| + i] == Pending(Some(slots[i].id), slots[i].name)
    ensures forall i :: 0 <= i < |SlotsWithGems(slots)| ==>
      r[|cube| + |slots| + i] == GemPending(SlotsWithGems(slots)[i].gem.value)
  {
    seq(|cube|, i requires 0 <= i < |cube| => Pending(Some(cube[i].0), cube[i].1))
    + seq(|slots|, i requires 0 <= i < |slots| => Pending(Some(slots[i].id), slots[i].name))
    + seq(|SlotsWithGems(slots)|, i requires 0 <= i < |SlotsWithGems(slots)| =>
        GemPending(SlotsWithGems(slots)[i].gem.value))
  }

  /** Reading `name` then `id` to build the URL: each missing key raises
      KeyError. */
  function Link(p: Pending): (r: Result<Linked>)
    ensures r.Ok? <==> p.name.Some? && p.id.Some?
    ensures p.name.None? ==> r == Err(KeyError("name"))
    ensures p.name.Some? && p.id.None? ==> r == Err(KeyError("id"))
    ensures r.Ok? ==> r.value.id == p.id.value && r.value.name == p.name.value
    ensures r.Ok? ==> r.value.url == ItemUrl(p.name.value, p.id.value)
  {
    match p.name
    case None => Err(KeyError("name"))
    case Some(name) =>
      match p.id
      case None => Err(KeyError("id"))
      case Some(id) => Ok(Linked(id, name, ItemUrl(name, id)))
  }

  /** `ps[i]` is the first entry whose URL cannot be built. */
  predicate FirstFailure(ps: seq<Pending>, i: int) {
    0 <= i < |ps| && Link(ps[i]).Err? && forall j :: 0 <= j < i ==> Link(ps[j]).Ok?
  }

  lemma FirstFailureShift(ps: seq<Pending>, e: Error)
    requires |ps| >= 1 && Link(ps[0]).Ok?
    requires exists i :: FirstFailure(ps[1..], i) && Link(ps[1..][i]) == Err(e)
    ensures exists i :: FirstFailure(ps, i) && Link(ps[i]) == Err(e)
  {
    var i :| FirstFailure(ps[1..], i) && Link(ps[1..][i]) == Err(e);
    assert ps[1..][i] == ps[i + 1];
    forall j | 0 <= j < i + 1
      ensures Link(ps[j]).Ok?
    {
      if j > 0 {
        assert ps[j] == ps[1..][j - 1];
      }
    }
    assert FirstFailure(ps, i + 1);
  }

  /** The URL loop over `items_list`: the first entry lacking a key ends it. */
  function LinkAll(ps: seq<Pending>): (r: Result<seq<Linked>>)
    ensures r.Ok? <==> forall i :: 0 <= i < |ps| ==> ps[i].name.Some? && ps[i].id.Some?
    ensures r.Ok? ==> |r.value| == |ps|
    ensures r.Ok? ==> forall i :: 0 <= i < |ps| ==> r.value[i] == Link(ps[i]).value
    ensures r.Err? ==> exists i :: FirstFailure(ps, i) && Link(ps[i]) == Err(r.error)
  {
    if ps == [] then Ok([])
    else
      match Link(ps[0])
      case Err(e) => Err(e)
      case Ok(first) =>
        assert forall i :: 1 <= i < |ps| ==> ps[i] == ps[1..][i - 1];
        match LinkAll(ps[1..])
        case Err(e) =>
          FirstFailureShift(ps, e);
          Err(e)
        case Ok(rest) => Ok([first] + rest)
  }

  /** Every URL the loop produces is the base, the slug of the entry's
      name, a hyphen and its remapped id. */
  lemma LinkAllUrls(ps: seq<Pending>)
    requires LinkAll(ps).Ok?
    ensures forall i :: 0 <= i < |ps| ==>
      var l := LinkAll(ps).value[i];
      && l.url[..|BaseUrl|] == BaseUrl
      && l.url[|BaseUrl|..|BaseUrl| + |Slug(l.name)|] == Slug(l.name)
      && l.url[|BaseUrl| + |Slug(l.name)|..] == "-" + SpecialId(l.id)
  {
    forall i | 0 <= i < |ps|
      ensures var l := LinkAll(ps).value[i];
        && l.url[..|BaseUrl|] == BaseUrl
        && l.url[|BaseUrl|..|BaseUrl| + |Slug(l.name)|] == Slug(l.name)
        && l.url[|BaseUrl| + |Slug(l.name)|..] == "-" + SpecialId(l.id)
    {
      var l := LinkAll(ps).value[i];
      assert l == Link(ps[i]).value;
      ItemUrlParts(l.name, l.id);
    }
  }

  lemma ItemUrlParts(name: string, id: Id)
    ensures var u := ItemUrl(name, id);
      && u[..|BaseUrl|] == BaseUrl
      && u[|BaseUrl|..|BaseUrl| + |Slug(name)|] == Slug(name)
      && u[|BaseUrl| + |Slug(name)|..] == "-" + SpecialId(id)
  {
    var u := ItemUrl(name, id);
    assert u == BaseUrl + (Slug(name) + ("-" + SpecialId(id)));
  }
}
