/** The tagging step: each entry of `items_list` gets a category, either
    from the tag cache (no prompt) or from the user's answers, which are
    read until one is a valid code; new answers are added to the cache. */
module Classify {
  import opened Wrappers
  import opened Items
  import opened Links

  const Craft: string := "craft"
  const Bounty: string := "bounty"
  const Gems: string := "gems"
  const CubeGamble: string := "cube/gamble"
  const Skip: string := "skip"

  /** The five categories the prompt can produce. */
  predicate IsCategory(c: string) {
    c == Craft || c == Bounty || c == Gems || c == CubeGamble || c == Skip
  }

  /** A code the prompt accepts. */
  predicate IsCode(n: int) {
    1 <= n <= 5
  }

  /** The category a valid code selects. */
  function CategoryOf(n: int): (c: string)
    requires IsCode(n)
    ensures IsCategory(c)
  {
    if n == 1 then Craft
    else if n == 2 then Bounty
    else if n == 3 then Gems
    else if n == 4 then CubeGamble
    else Skip
  }

  /** The codes select distinct categories. */
  lemma CategoryOfInjective(m: int, n: int)
    requires IsCode(m) && IsCode(n)
    ensures CategoryOf(m) == CategoryOf(n) <==> m == n
  {
  }

  /** The tag cache: item id to category, as stored in the tags file. */
  type Tags = map<Id, string>

  /** `inputs[k]` is the first valid code among the answers. */
  predicate FirstCodeAt(inputs: seq<int>, k: int) {
    0 <= k < |inputs| && IsCode(inputs[k]) && forall j :: 0 <= j < k ==> !IsCode(inputs[j])
  }

  /** The prompt loop for one item: answers that are not codes are read and
      dropped; the first code is the answer; running out of input is
      EOFError. */
  function ReadCategory(inputs: seq<int>): (r: Result<(string, seq<int>)>)
    ensures r.Ok? <==> exists k :: 0 <= k < |inputs| && IsCode(inputs[k])
    ensures r.Err? ==> r.error == EOFError
    ensures r.Ok? ==>
      exists k :: FirstCodeAt(inputs, k) && r.value == (CategoryOf(inputs[k]), inputs[k + 1..])
  {
    if inputs == [] then Err(EOFError)
    else if IsCode(inputs[0]) then
      assert FirstCodeAt(inputs, 0);
      Ok((CategoryOf(inputs[0]), inputs[1..]))
    else
      var r := ReadCategory(inputs[1..]);
      assert forall k :: 0 <= k < |inputs[1..]| ==> inputs[1..][k] == inputs[k + 1];
      if r.Ok? then
        SkipInvalid(inputs, r.value);
        r
      else r
  }

  lemma SkipInvalid(inputs: seq<int>, v: (string, seq<int>))
    requires |inputs| >= 1 && !IsCode(inputs[0])
    requires exists k :: FirstCodeAt(inputs[1..], k) && v == (CategoryOf(inputs[1..][k]), inputs[1..][k + 1..])
    ensures exists k :: FirstCodeAt(inputs, k) && v == (CategoryOf(inputs[k]), inputs[k + 1..])
  {
    var k :| FirstCodeAt(inputs[1..], k) && v == (CategoryOf(inputs[1..][k]), inputs[1..][k + 1..]);
    assert inputs[1..][k] == inputs[k + 1];
    assert inputs[1..][k + 1..] == inputs[k + 2..];
    forall j | 0 <= j < k + 1
      ensures !IsCode(inputs[j])
    {
      if j > 0 {
        assert inputs[j] == inputs[1..][j - 1];
      }
    }
    assert FirstCodeAt(inputs, k + 1);
  }

  /** An entry of `items_list` with its category. */
  datatype Tagged = Tagged(item: Linked, category: string)

  /** The outcome of tagging: the entries, the cache to be written back,
      and the answers not read. */
  datatype Session = Session(tagged: seq<Tagged>, tags: Tags, rest: seq<int>)

  /** The cache only grows, and keeps the category of every id it had. */
  predicate Extends(before: Tags, after: Tags) {
    forall id :: id in before ==> id in after && after[id] == before[id]
  }

  /** Every category in the cache is one of the five. */
  predicate ValidTags(tags: Tags) {
    forall id :: id in tags ==> IsCategory(tags[id])
  }

  /** One pass of the loop: a cached id takes its category without
      reading input; otherwise the prompt's answer is used and cached. */
  function ClassifyOne(item: Linked, tags: Tags, inputs: seq<int>): (r: Result<(Tagged, Tags, seq<int>)>)
    ensures item.id in tags ==> r == Ok((Tagged(item, tags[item.id]), tags, inputs))
    ensures item.id !in tags ==> match ReadCategory(inputs)
      case Err(e) => r == Err(e)
      case Ok((c, rest)) => r == Ok((Tagged(item, c), tags[item.id := c], rest))
  {
    if item.id in tags then Ok((Tagged(item, tags[item.id]), tags, inputs))
    else
      var (c, rest) :- ReadCategory(inputs);
      Ok((Tagged(item, c), tags[item.id := c], rest))
  }

  /** The loop over `items_list`; the cache a pass returns is the one the
      next pass sees, so a later entry with an id already answered is not
      asked again. */
  function ClassifyAll(items: seq<Linked>, tags: Tags, inputs: seq<int>): (r: Result<Session>)
    ensures r.Ok? ==> |r.value.tagged| == |items|
    ensures r.Ok? ==> forall i :: 0 <= i < |items| ==> r.value.tagged[i].item == items[i]
    ensures r.Ok? ==> Extends(tags, r.value.tags)
    ensures r.Ok? ==> forall i :: 0 <= i < |items| ==>
      items[i].id in r.value.tags && r.value.tags[items[i].id] == r.value.tagged[i].category
    ensures r.Err? ==> r.error == EOFError
  {
    if items == [] then Ok(Session([], tags, inputs))
    else
      var step :- ClassifyOne(items[0], tags, inputs);
      var s :- ClassifyAll(items[1..], step.1, step.2);
      assert forall i :: 1 <= i < |items| ==> items[i] == items[1..][i - 1];
      Ok(Session([step.0] + s.tagged, s.tags, s.rest))
  }

  /** The ids in the cache afterwards are those before plus the entries'
      ids. */
  lemma {:induction false} ClassifyAllKeys(items: seq<Linked>, tags: Tags, inputs: seq<int>)
    requires ClassifyAll(items, tags, inputs).Ok?
    ensures ClassifyAll(items, tags, inputs).value.tags.Keys
         == tags.Keys + (set i | 0 <= i < |items| :: items[i].id)
  {
    if items != [] {
      var step := ClassifyOne(items[0], tags, inputs).value;
      ClassifyAllKeys(items[1..], step.1, step.2);
      assert step.1.Keys == tags.Keys + {items[0].id};
      assert ClassifyAll(items, tags, inputs).value.tags == ClassifyAll(items[1..], step.1, step.2).value.tags;
      IdsCons(items);
    }
  }

  lemma IdsCons(items: seq<Linked>)
    requires items != []
    ensures (set i | 0 <= i < |items| :: items[i].id)
         == {items[0].id} + set i | 0 <= i < |items[1..]| :: items[1..][i].id
  {
    assert forall i :: 1 <= i < |items| ==> items[i] == items[1..][i - 1];
  }

  /** A cache of valid categories stays valid. */
  lemma {:induction false} ClassifyAllValid(items: seq<Linked>, tags: Tags, inputs: seq<int>)
    requires ClassifyAll(items, tags, inputs).Ok?
    ensures ValidTags(tags) ==> ValidTags(ClassifyAll(items, tags, inputs).value.tags)
  {
    if items != [] && ValidTags(tags) {
      var step := ClassifyOne(items[0], tags, inputs).value;
      if items[0].id !in tags {
        var k :| FirstCodeAt(inputs, k) && ReadCategory(inputs).value == (CategoryOf(inputs[k]), inputs[k + 1..]);
      }
      assert ValidTags(step.1);
      ClassifyAllValid(items[1..], step.1, step.2);
    }
  }

  /** `a` is what remains of `b` after dropping some first elements. */
  predicate IsSuffix(a: seq<int>, b: seq<int>) {
    |a| <= |b| && a == b[|b| - |a|..]
  }

  lemma SuffixTrans(a: seq<int>, b: seq<int>, c: seq<int>)
    requires IsSuffix(a, b) && IsSuffix(b, c)
    ensures IsSuffix(a, c)
  {
    assert c[|c| - |a|..] == c[|c| - |b|..][|b| - |a|..];
  }

  /** One pass reads a prefix of the answers. */
  lemma ClassifyOneSuffix(item: Linked, tags: Tags, inputs: seq<int>)
    requires ClassifyOne(item, tags, inputs).Ok?
    ensures IsSuffix(ClassifyOne(item, tags, inputs).value.2, inputs)
  {
    if item.id !in tags {
      var k :| FirstCodeAt(inputs, k) && ReadCategory(inputs).value == (CategoryOf(inputs[k]), inputs[k + 1..]);
      assert ClassifyOne(item, tags, inputs).value.2 == inputs[k + 1..];
    }
  }

  /** The answers left over are a suffix of the answers given. */
  lemma {:induction false} ClassifyAllSuffix(items: seq<Linked>, tags: Tags, inputs: seq<int>)
    requires ClassifyAll(items, tags, inputs).Ok?
    ensures IsSuffix(ClassifyAll(items, tags, inputs).value.rest, inputs)
  {
    if items != [] {
      var step := ClassifyOne(items[0], tags, inputs).value;
      ClassifyOneSuffix(items[0], tags, inputs);
      ClassifyAllSuffix(items[1..], step.1, step.2);
      SuffixTrans(ClassifyAll(items[1..], step.1, step.2).value.rest, step.2, inputs);
    }
  }

  /** Entries whose ids are all cached read no input, and take their
      categories from the cache, which comes back unchanged. */
  lemma {:induction false} ClassifyCached(items: seq<Linked>, tags: Tags, inputs: seq<int>)
    requires forall i :: 0 <= i < |items| ==> items[i].id in tags
    ensures ClassifyAll(items, tags, inputs).Ok?
    ensures ClassifyAll(items, tags, inputs).value.rest == inputs
    ensures ClassifyAll(items, tags, inputs).value.tags == tags
    ensures forall i :: 0 <= i < |items| ==>
      ClassifyAll(items, tags, inputs).value.tagged[i].category == tags[items[i].id]
  {
    if items != [] {
      assert forall i :: 1 <= i < |items| ==> items[i] == items[1..][i - 1];
      ClassifyCached(items[1..], tags, inputs);
    }
  }

  /** A second run over the same entries with the cache the first run
      wrote back asks nothing and assigns the same categories. */
  lemma ClassifyTwice(items: seq<Linked>, tags: Tags, inputs: seq<int>, later: seq<int>)
    requires ClassifyAll(items, tags, inputs).Ok?
    ensures var first := ClassifyAll(items, tags, inputs).value;
      var second := ClassifyAll(items, first.tags, later);
      && second.Ok?
      && second.value.rest == later
      && second.value.tags == first.tags
      && second.value.tagged == first.tagged
  {
    var first := ClassifyAll(items, tags, inputs).value;
    ClassifyCached(items, first.tags, later);
    var second := ClassifyAll(items, first.tags, later).value;
    assert forall i :: 0 <= i < |items| ==> second.tagged[i] == first.tagged[i];
  }

  /** With a cache of valid categories, every entry ends in one of the
      five. */
  lemma ClassifyExhaustive(items: seq<Linked>, tags: Tags, inputs: seq<int>)
    requires ValidTags(tags)
    requires ClassifyAll(items, tags, inputs).Ok?
    ensures forall i :: 0 <= i < |items| ==> IsCategory(ClassifyAll(items, tags, inputs).value.tagged[i].category)
  {
    ClassifyAllValid(items, tags, inputs);
    var s := ClassifyAll(items, tags, inputs).value;
    forall i | 0 <= i < |items|
      ensures IsCategory(s.tagged[i].category)
    {
      assert items[i].id in s.tags;
    }
  }
}
