/** The bookmark folder `Items`: one folder per category in `items_list`
    order, `skip` entries in none, and the cube/gamble folder labelled with
    both costs and sorted by a key read back out of its own labels. */
module Bookmarks {
  import opened Wrappers
  import opened Text
  import opened Sorting
  import opened Items
  import opened Links
  import opened Classify
  import opened Costs

  /** A bookmark node: `{"type": "url", ...}` or `{"type": "folder", ...}`. */
  datatype Bookmark = Url(name: string, url: string) | Folder(name: string, children: seq<Bookmark>)

  // ---------------------------------------------------------------------
  // Grouping by category

  /** The entries of category `c`, in their order. */
  function InCategory(ps: seq<Priced>, c: string): (r: seq<Priced>)
    ensures |r| <= |ps|
    ensures forall x :: x in r <==> x in ps && x.tag.category == c
  {
    if ps == [] then []
    else (if ps[0].tag.category == c then [ps[0]] else []) + InCategory(ps[1..], c)
  }

  /** Grouping keeps order: the group of a concatenation is the
      concatenation of the groups. */
  lemma {:induction false} InCategoryAppend(a: seq<Priced>, b: seq<Priced>, c: string)
    ensures InCategory(a + b, c) == InCategory(a, c) + InCategory(b, c)
  {
    if a != [] {
      assert (a + b)[1..] == a[1..] + b;
      InCategoryAppend(a[1..], b, c);
    } else {
      assert a + b == b;
    }
  }

  /** When every entry has category `c`, the group is all of them. */
  lemma {:induction false} InCategoryAll(ps: seq<Priced>, c: string)
    requires forall i :: 0 <= i < |ps| ==> ps[i].tag.category == c
    ensures InCategory(ps, c) == ps
  {
    if ps != [] {
      assert forall i :: 0 <= i < |ps[1..]| ==> ps[1..][i] == ps[i + 1];
      InCategoryAll(ps[1..], c);
    }
  }

  /** With every category one of the five, the five groups together are
      exactly as many as the entries. */
  lemma {:induction false} InCategoryPartition(ps: seq<Priced>)
    requires forall i :: 0 <= i < |ps| ==> IsCategory(ps[i].tag.category)
    ensures |InCategory(ps, Craft)| + |InCategory(ps, Bounty)| + |InCategory(ps, Gems)|
          + |InCategory(ps, CubeGamble)| + |InCategory(ps, Skip)| == |ps|
  {
    if ps != [] {
      assert forall i :: 0 <= i < |ps[1..]| ==> ps[1..][i] == ps[i + 1];
      InCategoryPartition(ps[1..]);
    }
  }

  /** The plain bookmark of an entry. */
  function Entry(p: Priced): Bookmark {
    Url(p.tag.item.name, p.tag.item.url)
  }

  function Entries(ps: seq<Priced>): (r: seq<Bookmark>)
    ensures |r| == |ps|
    ensures forall i :: 0 <= i < |ps| ==> r[i] == Entry(ps[i])
  {
    seq(|ps|, i requires 0 <= i < |ps| => Entry(ps[i]))
  }

  /** The Craft, Bounty and Gems folders. */
  function PlainFolder(name: string, ps: seq<Priced>, c: string): (f: Bookmark)
    ensures f.Folder? && f.name == name
    ensures f.children == Entries(InCategory(ps, c))
  {
    Folder(name, Entries(InCategory(ps, c)))
  }

  /** A `skip` entry is in no group that makes a folder, and every entry
      of a folder's group has that folder's category. */
  lemma SkipInNoFolder(ps: seq<Priced>, p: Priced)
    requires p.tag.category == Skip
    ensures p !in InCategory(ps, Craft) && p !in InCategory(ps, Bounty)
    ensures p !in InCategory(ps, Gems) && p !in InCategory(ps, CubeGamble)
  {
  }

  // ---------------------------------------------------------------------
  // The cube/gamble labels and the sort key read back from them

  const Delimiter: string := " - "

  /** `f"{name} - {bloodshard_cost} - {death_breath_cost}"`. */
  function Label(name: string, c: Cost): string {
    name + Delimiter + IntToString(c.bloodshards) + Delimiter + IntToString(c.deathBreaths)
  }

  /** The cube/gamble bookmark of an entry; reading the missing cost of an
      entry that no gambling record priced raises KeyError. */
  function CubeEntry(p: Priced): (r: Result<Bookmark>)
    ensures r.Ok? <==> p.cost.Some?
    ensures r.Err? ==> r.error == KeyError("bloodshard_cost")
    ensures r.Ok? ==> r.value == Url(Label(p.tag.item.name, p.cost.value), p.tag.item.url)
  {
    match p.cost
    case None => Err(KeyError("bloodshard_cost"))
    case Some(c) => Ok(Url(Label(p.tag.item.name, c), p.tag.item.url))
  }

  /** Every entry has its costs. */
  predicate AllPriced(ps: seq<Priced>) {
    forall i :: 0 <= i < |ps| ==> ps[i].cost.Some?
  }

  function CubeEntries(ps: seq<Priced>): (r: Result<seq<Bookmark>>)
    ensures r.Ok? <==> AllPriced(ps)
    ensures r.Err? ==> r.error == KeyError("bloodshard_cost")
    ensures r.Ok? ==> |r.value| == |ps|
    ensures r.Ok? ==> forall i :: 0 <= i < |ps| ==> r.value[i] == CubeEntry(ps[i]).value
  {
    if ps == [] then Ok([])
    else
      match CubeEntry(ps[0])
      case Err(e) => Err(e)
      case Ok(b) =>
        match CubeEntries(ps[1..])
        case Err(e) =>
          assert !AllPriced(ps) by {
            var k :| 0 <= k < |ps| - 1 && ps[1..][k].cost.None?;
            assert ps[k + 1].cost.None?;
          }
          Err(e)
        case Ok(rest) =>
          assert forall i :: 1 <= i < |ps| ==> ps[i] == ps[1..][i - 1];
          Ok([b] + rest)
  }

  /** The sort key as written: the text from just after the first
      delimiter up to two characters before the next one, parsed by
      `int()`. */
  function SortKeyAsWritten(caption: string): (r: Result<int>)
    ensures r.Ok? <==> ParseInt(KeyText(caption)).Some?
    ensures r.Ok? ==> r.value == ParseInt(KeyText(caption)).value
    ensures r.Err? ==> r.error == ValueError(KeyText(caption))
  {
    var t := KeyText(caption);
    match ParseInt(t)
    case None => Err(ValueError(t))
    case Some(k) => Ok(k)
  }

  /** The text the key parses. */
  function KeyText(caption: string): string {
    var i := Find(caption, Delimiter, 0);
    var j := Find(caption, Delimiter, i + 3);
    PySlice(caption, i + 3, j - 2)
  }

  /** `Find` returns the first occurrence at or after `start`. */
  lemma FindIs(s: string, pat: string, start: nat, k: int)
    requires start <= k && OccursAt(s, pat, k)
    requires forall i :: start <= i < k ==> !OccursAt(s, pat, i)
    ensures Find(s, pat, start) == k
  {
  }

  /** In the label of `name`, the first delimiter is the one after the name:
      the name holds no delimiter and does not end in " -". */
  predicate ClearName(name: string) {
    forall i :: 0 <= i < |name| ==> !OccursAt(name + Delimiter, Delimiter, i)
  }

  /** For a clear name, the text the key parses is the first number of the
      label without its last two characters. */
  lemma KeyTextOfLabel(name: string, b: string, d: string)
    requires ClearName(name) && ' ' !in b
    ensures KeyText(name + Delimiter + b + Delimiter + d) == if |b| >= 2 then b[..|b| - 2] else ""
  {
    var caption := name + Delimiter + b + Delimiter + d;
    var n := |name|;
    FirstDelimiter(name, b + Delimiter + d);
    assert caption == name + Delimiter + (b + Delimiter + d);
    SecondDelimiter(name + Delimiter, b, d);
    if |b| >= 2 {
      assert caption[n + 3..n + 1 + |b|] == b[..|b| - 2];
    }
  }

  /** A clear name is followed by the first delimiter. */
  lemma FirstDelimiter(name: string, rest: string)
    requires ClearName(name)
    ensures Find(name + Delimiter + rest, Delimiter, 0) == |name|
  {
    var caption := name + Delimiter + rest;
    var n := |name|;
    assert caption[n..n + 3] == Delimiter;
    forall i | 0 <= i < n
      ensures !OccursAt(caption, Delimiter, i)
    {
      assert !OccursAt(name + Delimiter, Delimiter, i);
      assert caption[i..i + 3] == (name + Delimiter)[i..i + 3];
    }
    FindIs(caption, Delimiter, 0, n);
  }

  /** Searching after a prefix, text without spaces is skipped up to the
      next delimiter. */
  lemma SecondDelimiter(pre: string, b: string, d: string)
    requires ' ' !in b
    ensures Find(pre + b + Delimiter + d, Delimiter, |pre|) == |pre| + |b|
  {
    var caption := pre + b + Delimiter + d;
    var m := |pre|;
    assert caption[m + |b|..m + |b| + 3] == Delimiter;
    forall i | m <= i < m + |b|
      ensures !OccursAt(caption, Delimiter, i)
    {
      assert caption[i] == b[i - m];
    }
    FindIs(caption, Delimiter, m, m + |b|);
  }

  /** With a clear name and a non-negative bloodshard cost, the key is the
      cost divided by 100, and `int()` fails on the empty text left when the
      cost is below 100. */
  lemma SortKeyOfLabel(name: string, c: Cost)
    requires ClearName(name) && c.bloodshards >= 0
    ensures SortKeyAsWritten(Label(name, c))
         == if c.bloodshards >= 100 then Ok(c.bloodshards / 100) else Err(ValueError(""))
  {
    var b := NatToString(c.bloodshards);
    assert Label(name, c) == name + Delimiter + b + Delimiter + IntToString(c.deathBreaths);
    DigitsExclude(b, ' ');
    KeyTextOfLabel(name, b, IntToString(c.deathBreaths));
    NatToStringDropTwo(c.bloodshards);
    if c.bloodshards >= 100 {
      ParseIntToString(c.bloodshards / 100);
    } else {
      ParseIntEmpty();
    }
  }

  /** `key` succeeds on every child's name. */
  predicate Keyable(children: seq<Bookmark>, key: string -> Result<int>) {
    forall i :: 0 <= i < |children| ==> key(children[i].name).Ok?
  }

  /** Child `i` is the first whose key fails. */
  predicate FirstKeyFailure(children: seq<Bookmark>, key: string -> Result<int>, i: int) {
    0 <= i < |children| && key(children[i].name).Err? && forall j :: 0 <= j < i ==> key(children[j].name).Ok?
  }

  lemma FirstKeyFailureShift(children: seq<Bookmark>, key: string -> Result<int>, e: Error)
    requires |children| >= 1 && key(children[0].name).Ok?
    requires exists i :: FirstKeyFailure(children[1..], key, i) && key(children[1..][i].name) == Err(e)
    ensures exists i :: FirstKeyFailure(children, key, i) && key(children[i].name) == Err(e)
  {
    var i :| FirstKeyFailure(children[1..], key, i) && key(children[1..][i].name) == Err(e);
    assert children[1..][i] == children[i + 1];
    forall j | 0 <= j < i + 1
      ensures key(children[j].name).Ok?
    {
      if j > 0 {
        assert children[j] == children[1..][j - 1];
      }
    }
    assert FirstKeyFailure(children, key, i + 1);
  }

  /** The key of every child, computed before any comparison, as
      `list.sort` does; the first key that fails ends the sort with its
      error. */
  function SortKeys(children: seq<Bookmark>, key: string -> Result<int>): (r: Result<seq<(Bookmark, int)>>)
    ensures r.Ok? <==> Keyable(children, key)
    ensures r.Ok? ==> |r.value| == |children|
    ensures r.Ok? ==> forall i :: 0 <= i < |children| ==> r.value[i] == (children[i], key(children[i].name).value)
    ensures r.Err? ==> exists i :: FirstKeyFailure(children, key, i) && key(children[i].name) == Err(r.error)
  {
    if children == [] then Ok([])
    else
      match key(children[0].name)
      case Err(e) =>
        assert FirstKeyFailure(children, key, 0);
        Err(e)
      case Ok(k) =>
        assert forall i :: 1 <= i < |children| ==> children[i] == children[1..][i - 1];
        match SortKeys(children[1..], key)
        case Err(e) =>
          FirstKeyFailureShift(children, key, e);
          Err(e)
        case Ok(rest) => Ok([(children[0], k)] + rest)
  }

  /** The elements of a keyed sequence, keys dropped. */
  function Firsts<T>(s: seq<(T, int)>): (r: seq<T>)
    ensures |r| == |s|
    ensures forall i :: 0 <= i < |s| ==> r[i] == s[i].0
  {
    seq(|s|, i requires 0 <= i < |s| => s[i].0)
  }

  const CubeGambleName: string := "Cube/Gamble"

  /** The cube/gamble folder as written: labelled children, sorted by the
      key read back from each label. */
  function CubeGambleFolderAsWritten(ps: seq<Priced>): Result<Bookmark> {
    var children :- CubeEntries(InCategory(ps, CubeGamble));
    var keyed :- SortKeys(children, SortKeyAsWritten);
    Ok(Folder(CubeGambleName, Firsts(SortByKey(keyed))))
  }

  /** Every cube/gamble entry is priced, has a clear name and a
      non-negative bloodshard cost. */
  predicate PlainGambles(ps: seq<Priced>) {
    forall i :: 0 <= i < |ps| ==>
      ps[i].cost.Some? && ClearName(ps[i].tag.item.name) && ps[i].cost.value.bloodshards >= 0
  }

  /** Every bloodshard cost is at least 100. */
  predicate AllCostly(ps: seq<Priced>)
    requires AllPriced(ps)
  {
    forall i :: 0 <= i < |ps| ==> ps[i].cost.value.bloodshards >= 100
  }

  /** Each labelled child keyed by its bloodshard cost divided by 100. */
  function HundredsKeyed(ps: seq<Priced>): (r: seq<(Bookmark, int)>)
    requires AllPriced(ps)
    ensures |r| == |ps|
    ensures forall i :: 0 <= i < |ps| ==> r[i] == (CubeEntry(ps[i]).value, ps[i].cost.value.bloodshards / 100)
  {
    seq(|ps|, i requires 0 <= i < |ps| => (CubeEntry(ps[i]).value, ps[i].cost.value.bloodshards / 100))
  }

  lemma ChildKeys(g: seq<Priced>)
    requires PlainGambles(g)
    ensures forall i :: 0 <= i < |g| ==>
      SortKeyAsWritten(CubeEntry(g[i]).value.name)
        == if g[i].cost.value.bloodshards >= 100 then Ok(g[i].cost.value.bloodshards / 100)
           else Err(ValueError(""))
  {
    forall i | 0 <= i < |g|
      ensures SortKeyAsWritten(CubeEntry(g[i]).value.name)
           == if g[i].cost.value.bloodshards >= 100 then Ok(g[i].cost.value.bloodshards / 100)
              else Err(ValueError(""))
    {
      SortKeyOfLabel(g[i].tag.item.name, g[i].cost.value);
    }
  }

  /** The keys of `children` are read off `g`'s costs: the cost divided
      by 100 where it is at least 100, and a failure elsewhere. */
  lemma KeysByCost(children: seq<Bookmark>, g: seq<Priced>, key: string -> Result<int>)
    requires |children| == |g| && AllPriced(g)
    requires forall i :: 0 <= i < |g| ==>
      key(children[i].name)
        == if g[i].cost.value.bloodshards >= 100 then Ok(g[i].cost.value.bloodshards / 100)
           else Err(ValueError(""))
    ensures var r := SortKeys(children, key);
      && (r.Ok? <==> AllCostly(g))
      && (r.Ok? ==> forall i :: 0 <= i < |g| ==> r.value[i] == (children[i], g[i].cost.value.bloodshards / 100))
      && (r.Err? ==> r.error == ValueError(""))
  {
    var r := SortKeys(children, key);
    if r.Err? {
      var i :| FirstKeyFailure(children, key, i) && key(children[i].name) == Err(r.error);
    }
  }

  /** Sorting keys that are the cost divided by 100 where it is at least
      100 and a failure elsewhere. */
  lemma {:induction false} HundredsKeys(g: seq<Priced>, key: string -> Result<int>)
    requires AllPriced(g)
    requires forall i :: 0 <= i < |g| ==>
      key(CubeEntry(g[i]).value.name)
        == if g[i].cost.value.bloodshards >= 100 then Ok(g[i].cost.value.bloodshards / 100)
           else Err(ValueError(""))
    ensures var r := SortKeys(CubeEntries(g).value, key);
      && (r.Ok? <==> AllCostly(g))
      && (r.Ok? ==> r.value == HundredsKeyed(g))
      && (r.Err? ==> r.error == ValueError(""))
  {
    var children := CubeEntries(g).value;
    assert forall i :: 0 <= i < |g| ==> children[i] == CubeEntry(g[i]).value;
    KeysByCost(children, g, key);
    var r := SortKeys(children, key);
    if r.Ok? {
      HundredsKeyedOf(g, children, r.value);
    }
  }

  lemma HundredsKeyedOf(g: seq<Priced>, children: seq<Bookmark>, keyed: seq<(Bookmark, int)>)
    requires AllPriced(g) && |children| == |g| == |keyed|
    requires forall i :: 0 <= i < |g| ==> children[i] == CubeEntry(g[i]).value
    requires forall i :: 0 <= i < |g| ==> keyed[i] == (children[i], g[i].cost.value.bloodshards / 100)
    ensures keyed == HundredsKeyed(g)
  {
  }

  /** The as-written folder, for clear names and non-negative costs: it
      fails exactly when some cost is below 100, and otherwise it is the
      stable sort by the cost divided by 100, not by the cost. */
  lemma CubeGambleAsWrittenKeys(ps: seq<Priced>)
    requires PlainGambles(InCategory(ps, CubeGamble))
    ensures var g := InCategory(ps, CubeGamble);
      var r := CubeGambleFolderAsWritten(ps);
      && (r.Ok? <==> AllCostly(g))
      && (r.Ok? ==> r.value == Folder(CubeGambleName, Firsts(SortByKey(HundredsKeyed(g)))))
      && (r.Err? ==> r.error == ValueError(""))
  {
    var g := InCategory(ps, CubeGamble);
    ChildKeys(g);
    HundredsKeys(g, SortKeyAsWritten);
  }

  // ---------------------------------------------------------------------
  // The corrected cube/gamble folder

  /** A labelled child keyed by its bloodshard cost as a number. */
  function CubeKeyed(ps: seq<Priced>): (r: Result<seq<(Bookmark, int)>>)
    ensures r.Ok? <==> AllPriced(ps)
    ensures r.Err? ==> r.error == KeyError("bloodshard_cost")
    ensures r.Ok? ==> |r.value| == |ps|
    ensures r.Ok? ==> forall i :: 0 <= i < |ps| ==>
      r.value[i] == (CubeEntry(ps[i]).value, ps[i].cost.value.bloodshards)
  {
    var children :- CubeEntries(ps);
    Ok(seq(|ps|, i requires 0 <= i < |ps| => (children[i], ps[i].cost.value.bloodshards)))
  }

  /** The cube/gamble folder sorted by the bloodshard cost carried as data:
      cheapest gamble first, ties in `items_list` order. */
  function CubeGambleFolder(ps: seq<Priced>): (r: Result<Bookmark>)
    ensures r.Ok? <==> AllPriced(InCategory(ps, CubeGamble))
    ensures r.Err? ==> r.error == KeyError("bloodshard_cost")
    ensures r.Ok? ==> r.value.Folder? && r.value.name == CubeGambleName
    ensures r.Ok? ==> |r.value.children| == |InCategory(ps, CubeGamble)|
  {
    var keyed :- CubeKeyed(InCategory(ps, CubeGamble));
    Ok(Folder(CubeGambleName, Firsts(SortByKey(keyed))))
  }

  /** The corrected folder holds the labelled children of the cube/gamble
      entries, each exactly as often as before, in ascending order of
      bloodshard cost, with equal costs in their original order. */
  lemma CubeGambleSorted(ps: seq<Priced>)
    requires CubeGambleFolder(ps).Ok?
    ensures var keyed := CubeKeyed(InCategory(ps, CubeGamble)).value;
      var sorted := SortByKey(keyed);
      && CubeGambleFolder(ps).value.children == Firsts(sorted)
      && multiset(sorted) == multiset(keyed)
      && SortedByKey(sorted)
      && forall k :: WithKey(sorted, k) == WithKey(keyed, k)
  {
    var keyed := CubeKeyed(InCategory(ps, CubeGamble)).value;
    forall k
      ensures WithKey(SortByKey(keyed), k) == WithKey(keyed, k)
    {
      SortByKeyStable(keyed, k);
    }
  }

  /** The whole `Items` folder around a cube/gamble folder: the three plain
      folders never fail, so the cube/gamble folder decides. */
  function ItemsFolderAround(ps: seq<Priced>, cube: Result<Bookmark>): (r: Result<Bookmark>)
    ensures r.Ok? <==> cube.Ok?
    ensures r.Err? ==> r.error == cube.error
    ensures r.Ok? ==> r.value == Folder("Items", [
      PlainFolder("Craft", ps, Craft),
      PlainFolder("Bounty", ps, Bounty),
      PlainFolder("Gems", ps, Gems),
      cube.value])
  {
    var c :- cube;
    Ok(Folder("Items", [PlainFolder("Craft", ps, Craft), PlainFolder("Bounty", ps, Bounty),
                        PlainFolder("Gems", ps, Gems), c]))
  }

  /** The whole `Items` folder, with the corrected cube/gamble folder. */
  function ItemsFolder(ps: seq<Priced>): (r: Result<Bookmark>)
    ensures r.Ok? <==> AllPriced(InCategory(ps, CubeGamble))
    ensures r.Err? ==> r.error == KeyError("bloodshard_cost")
    ensures r.Ok? ==> r.value == Folder("Items", [
      PlainFolder("Craft", ps, Craft),
      PlainFolder("Bounty", ps, Bounty),
      PlainFolder("Gems", ps, Gems),
      CubeGambleFolder(ps).value])
  {
    ItemsFolderAround(ps, CubeGambleFolder(ps))
  }

  /** The whole `Items` folder as written: for clear names and non-negative
      costs it fails with ValueError exactly when a cube/gamble entry costs
      under 100 bloodshards. */
  function ItemsFolderAsWritten(ps: seq<Priced>): (r: Result<Bookmark>)
    ensures PlainGambles(InCategory(ps, CubeGamble)) ==>
      var g := InCategory(ps, CubeGamble);
      && (r.Ok? <==> AllCostly(g))
      && (r.Err? ==> r.error == ValueError(""))
  {
    var r := ItemsFolderAround(ps, CubeGambleFolderAsWritten(ps));
    if PlainGambles(InCategory(ps, CubeGamble)) then
      CubeGambleAsWrittenKeys(ps);
      r
    else r
  }

  // ---------------------------------------------------------------------
  // Three gambles costing 30, 5 and 100 bloodshards

  function Gamble(name: string, url: string, shards: int): Priced {
    Priced(Tagged(Linked(name, name, url), CubeGamble), Some(Cost(shards, 1)))
  }

  function ThreeGambles(): seq<Priced> {
    [Gamble("A", "a", 30), Gamble("B", "b", 5), Gamble("C", "c", 100)]
  }

  /** As written, the key of the 30-shard gamble is `int("")`, and the
      folder cannot be built. */
  lemma ThreeGamblesAsWritten()
    ensures CubeGambleFolderAsWritten(ThreeGambles()) == Err(ValueError(""))
  {
    var ps := ThreeGambles();
    assert InCategory(ps, CubeGamble) == ps;
    assert forall i :: 0 <= i < 3 ==> ClearName(ps[i].tag.item.name) by {
      assert ("A" + Delimiter)[0] == 'A' && ("B" + Delimiter)[0] == 'B' && ("C" + Delimiter)[0] == 'C';
    }
    CubeGambleAsWrittenKeys(ps);
  }

  lemma SortOne<T>(z: (T, int))
    ensures SortByKey([z]) == [z]
  {
    assert [z][1..] == [];
  }

  /** The stable sort of three keys whose middle one is the smallest and
      whose last one is the largest. */
  lemma SortThreeOrder<T>(x: (T, int), y: (T, int), z: (T, int))
    requires y.1 < x.1 <= z.1
    ensures SortByKey([x, y, z]) == [y, x, z]
  {
    assert [x, y, z][1..] == [y, z];
    assert [y, z][1..] == [z];
    SortOne(z);
    assert SortByKey([y, z]) == Insert(y, [z]) == [y, z];
    assert Insert(x, [z]) == [x, z];
    assert Insert(x, [y, z]) == [y] + Insert(x, [z]);
  }

  lemma SortThree<T>(x: (T, int), y: (T, int), z: (T, int))
    requires y.1 < x.1 <= z.1
    ensures Firsts(SortByKey([x, y, z])) == [y.0, x.0, z.0]
  {
    SortThreeOrder(x, y, z);
    var f := Firsts([y, x, z]);
    assert f[0] == y.0 && f[1] == x.0 && f[2] == z.0;
  }

  /** Three cube/gamble entries whose middle one is the cheapest and whose
      last one the dearest come out in the order middle, first, last. */
  lemma SortsThreeGambles(a: Priced, b: Priced, c: Priced)
    requires a.tag.category == CubeGamble && b.tag.category == CubeGamble && c.tag.category == CubeGamble
    requires a.cost.Some? && b.cost.Some? && c.cost.Some?
    requires b.cost.value.bloodshards < a.cost.value.bloodshards <= c.cost.value.bloodshards
    ensures CubeGambleFolder([a, b, c]).Ok?
    ensures CubeGambleFolder([a, b, c]).value.children
         == [CubeEntry(b).value, CubeEntry(a).value, CubeEntry(c).value]
  {
    var ps := [a, b, c];
    InCategoryAll(ps, CubeGamble);
    assert AllPriced(ps);
    SortsThreeKeyed(ps);
    assert CubeGambleFolder(ps) == Ok(Folder(CubeGambleName, Firsts(SortByKey(CubeKeyed(ps).value))));
  }

  lemma SortsThreeKeyed(ps: seq<Priced>)
    requires |ps| == 3 && AllPriced(ps)
    requires ps[1].cost.value.bloodshards < ps[0].cost.value.bloodshards <= ps[2].cost.value.bloodshards
    ensures Firsts(SortByKey(CubeKeyed(ps).value)) == [CubeEntry(ps[1]).value, CubeEntry(ps[0]).value, CubeEntry(ps[2]).value]
  {
    var keyed := CubeKeyed(ps).value;
    assert keyed == [keyed[0], keyed[1], keyed[2]];
    SortThree(keyed[0], keyed[1], keyed[2]);
  }

  /** The corrected folder lists the three at 5, 30, then 100 bloodshards. */
  lemma ThreeGamblesSorted()
    ensures CubeGambleFolder(ThreeGambles()).Ok?
    ensures CubeGambleFolder(ThreeGambles()).value.children
         == [CubeEntry(Gamble("B", "b", 5)).value, CubeEntry(Gamble("A", "a", 30)).value,
             CubeEntry(Gamble("C", "c", 100)).value]
  {
    SortsThreeGambles(Gamble("A", "a", 30), Gamble("B", "b", 5), Gamble("C", "c", 100));
  }
}
