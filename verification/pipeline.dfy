/** A whole run of the extractor, from the planner URL to the `Items`
    bookmark folder, with the fetched planner data, the translation and
    gambling tables and the console input passed in as values. */
module Pipeline {
  import opened Wrappers
  import opened Items
  import opened BuildUrl
  import opened Resolve
  import opened Links
  import opened Classify
  import opened Costs
  import opened Bookmarks

  /** `s[k]` on a Python list: negative indices count from the end. */
  function PyIndex<T>(s: seq<T>, k: int): (r: Result<T>)
    ensures r.Ok? <==> -|s| <= k < |s|
    ensures r.Err? ==> r.error == IndexError
  {
    if 0 <= k < |s| then Ok(s[k])
    else if -|s| <= k < 0 then Ok(s[|s| + k])
    else Err(IndexError)
  }

  /** Each profile is reached by two indices: its position and that
      position minus the number of profiles. */
  lemma PyIndexTwoWays<T>(s: seq<T>, k: int, i: int)
    requires 0 <= i < |s|
    ensures PyIndex(s, i) == Ok(s[i])
    ensures PyIndex(s, k) == Ok(s[i]) <== k == i || k == i - |s|
  {
  }

  /** The profile the first line of input chooses. */
  function ChooseProfile(profiles: seq<Profile>, inputs: seq<int>): (r: Result<(Profile, seq<int>)>)
    ensures inputs == [] ==> r == Err(EOFError)
    ensures inputs != [] ==> (r.Ok? <==> -|profiles| <= inputs[0] < |profiles|)
    ensures inputs != [] && r.Err? ==> r.error == IndexError
    ensures r.Ok? ==> r.value.1 == inputs[1..]
    ensures r.Ok? ==> r.value.0 == if inputs[0] >= 0 then profiles[inputs[0]] else profiles[|profiles| + inputs[0]]
  {
    if inputs == [] then Err(EOFError)
    else
      var p :- PyIndex(profiles, inputs[0]);
      Ok((p, inputs[1..]))
  }

  /** What a run has computed when it reaches the tag prompt: the build
      id, the chosen profile, `items_list` with URLs, and the input left. */
  datatype Prepared = Prepared(buildId: string, profile: Profile, items: seq<Linked>, inputs: seq<int>)

  /** Everything after the URL check and before the tag prompt, given the
      check's verdict: the profile choice, extraction, translation, and
      `items_list` with URLs. */
  function PrepareAfterCheck(check: Result<string>, profiles: seq<Profile>, tr: Translations, inputs: seq<int>)
    : (r: Result<Prepared>)
    ensures check.Err? ==> r == Err(check.error)
    ensures r.Ok? ==> check.Ok? && r.value.buildId == check.value
    ensures r.Ok? ==> |r.value.inputs| < |inputs| && r.value.inputs == inputs[1..]
  {
    var buildId :- check;
    var (profile, rest) :- ChooseProfile(profiles, inputs);
    var ex :- Extract(profile);
    var cube := TranslateCube(tr.items, ex.cube);
    var slots :- ResolveEquipped(tr.items, tr.legendaryGems, ex.equipped);
    var items :- LinkAll(ItemsList(cube, slots));
    Ok(Prepared(buildId, profile, items, rest))
  }

  /** Everything before the tag prompt, with the corrected URL check. */
  function Prepare(url: string, profiles: seq<Profile>, tr: Translations, inputs: seq<int>): (r: Result<Prepared>)
    ensures !MatchesStrict(url) ==> r == Err(InvalidUrl)
    ensures r.Ok? ==> MatchesStrict(url) && r.value.buildId == CheckUrl(url).value
    ensures r.Ok? ==> |r.value.inputs| < |inputs| && r.value.inputs == inputs[1..]
  {
    PrepareAfterCheck(CheckUrl(url), profiles, tr, inputs)
  }

  /** Everything before the tag prompt, with the URL check and build id as
      the script has them. */
  function PrepareAsWritten(url: string, profiles: seq<Profile>, tr: Translations, inputs: seq<int>)
    : (r: Result<Prepared>)
    ensures !Matches(url) ==> r == Err(InvalidUrl)
    ensures r.Ok? ==> Matches(url) && r.value.buildId == BuildIdAsWritten(url)
    ensures r.Ok? ==> |r.value.inputs| < |inputs| && r.value.inputs == inputs[1..]
  {
    PrepareAfterCheck(CheckUrlAsWritten(url), profiles, tr, inputs)
  }

  /** The two URL findings reach the run: the script goes on with a URL
      ending in a newline, which the corrected check stops, and it fetches
      build `b` for `…/123#a/b`, where the corrected run fetches `123`. */
  lemma PrepareAsWrittenDiffers(profiles: seq<Profile>, tr: Translations, inputs: seq<int>)
    ensures Prepare(Prefix + "123\n", profiles, tr, inputs) == Err(InvalidUrl)
    ensures PrepareAsWritten(Prefix + "123\n", profiles, tr, inputs)
         == PrepareAfterCheck(Ok("123\n"), profiles, tr, inputs)
    ensures Prepare(Prefix + "123#a/b", profiles, tr, inputs)
         == PrepareAfterCheck(Ok("123"), profiles, tr, inputs)
    ensures PrepareAsWritten(Prefix + "123#a/b", profiles, tr, inputs)
         == PrepareAfterCheck(Ok("b"), profiles, tr, inputs)
  {
    TrailingNewline();
    SlashInFragment();
  }

  /** The files a run leaves: the folder and the priced entries, if it
      gets that far. */
  datatype Output = Output(buildId: string, priced: seq<Priced>, folder: Bookmark)

  /** The tag cache as the run leaves it on disk, and how the run ended. */
  datatype Outcome = Outcome(tags: Tags, result: Result<Output>)

  /** A run from the tag prompt on, with `folder` building the `Items`
      folder. The tag cache is written once every entry is tagged, before
      the costs are computed, so a run that fails later still leaves the
      new tags on disk. */
  function Finish(p: Prepared, tags: Tags, gambling: Gambling, folder: seq<Priced> -> Result<Bookmark>)
    : (o: Outcome)
    ensures Extends(tags, o.tags)
    ensures ValidTags(tags) ==> ValidTags(o.tags)
    ensures ClassifyAll(p.items, tags, p.inputs).Err? ==> o == Outcome(tags, Err(EOFError))
    ensures o.result.Ok? ==> o.result.value.buildId == p.buildId
  {
    match ClassifyAll(p.items, tags, p.inputs)
    case Err(e) => Outcome(tags, Err(e))
    case Ok(session) =>
      ClassifyAllValid(p.items, tags, p.inputs);
      var result :=
        var priced :- PriceAll(gambling, p.profile.className, session.tagged);
        var items :- folder(priced);
        Ok(Output(p.buildId, priced, items));
      Outcome(session.tags, result)
  }

  /** A run with the corrected URL check and cube/gamble sort. A run that
      fails before tagging leaves the cache as it was. */
  function Run(url: string, profiles: seq<Profile>, tr: Translations, tags: Tags, inputs: seq<int>,
               gambling: Gambling): (o: Outcome)
    ensures Extends(tags, o.tags)
    ensures ValidTags(tags) ==> ValidTags(o.tags)
    ensures !MatchesStrict(url) ==> o == Outcome(tags, Err(InvalidUrl))
    ensures Prepare(url, profiles, tr, inputs).Err? ==> o == Outcome(tags, Err(Prepare(url, profiles, tr, inputs).error))
    ensures o.result.Ok? ==> o.result.value.buildId == CheckUrl(url).value
  {
    match Prepare(url, profiles, tr, inputs)
    case Err(e) => Outcome(tags, Err(e))
    case Ok(p) => Finish(p, tags, gambling, ItemsFolder)
  }

  /** A run as the script has it: the written URL check and build id, and
      the cube/gamble sort keyed on the label text. */
  function RunAsWritten(url: string, profiles: seq<Profile>, tr: Translations, tags: Tags, inputs: seq<int>,
                        gambling: Gambling): (o: Outcome)
    ensures Extends(tags, o.tags)
    ensures ValidTags(tags) ==> ValidTags(o.tags)
    ensures !Matches(url) ==> o == Outcome(tags, Err(InvalidUrl))
    ensures PrepareAsWritten(url, profiles, tr, inputs).Err? ==>
      o == Outcome(tags, Err(PrepareAsWritten(url, profiles, tr, inputs).error))
    ensures o.result.Ok? ==> o.result.value.buildId == BuildIdAsWritten(url)
  {
    match PrepareAsWritten(url, profiles, tr, inputs)
    case Err(e) => Outcome(tags, Err(e))
    case Ok(p) => Finish(p, tags, gambling, ItemsFolderAsWritten)
  }

  /** Once the entries are tagged and priced, a cube/gamble entry under 100
      bloodshards makes the script's run end in ValueError after the cache
      is written, while the corrected run completes with the same cache. */
  lemma FinishCheapGamble(p: Prepared, tags: Tags, gambling: Gambling)
    requires ClassifyAll(p.items, tags, p.inputs).Ok?
    requires PriceAll(gambling, p.profile.className, ClassifyAll(p.items, tags, p.inputs).value.tagged).Ok?
    requires var g := InCategory(PriceAll(gambling, p.profile.className,
                                          ClassifyAll(p.items, tags, p.inputs).value.tagged).value, CubeGamble);
      PlainGambles(g) && AllPriced(g) && !AllCostly(g)
    ensures var session := ClassifyAll(p.items, tags, p.inputs).value;
      && Finish(p, tags, gambling, ItemsFolderAsWritten) == Outcome(session.tags, Err(ValueError("")))
      && Finish(p, tags, gambling, ItemsFolder).tags == session.tags
      && Finish(p, tags, gambling, ItemsFolder).result.Ok?
  {
  }

  /** Once tagging completes, the cache on disk is the tagged cache whether
      or not the costs and the folder can be computed, and it holds the
      category of every entry. */
  lemma RunPersistsTags(url: string, profiles: seq<Profile>, tr: Translations, tags: Tags, inputs: seq<int>,
                        gambling: Gambling)
    requires Prepare(url, profiles, tr, inputs).Ok?
    requires var p := Prepare(url, profiles, tr, inputs).value;
      ClassifyAll(p.items, tags, p.inputs).Ok?
    ensures var p := Prepare(url, profiles, tr, inputs).value;
      var o := Run(url, profiles, tr, tags, inputs, gambling);
      && o.tags == ClassifyAll(p.items, tags, p.inputs).value.tags
      && forall i :: 0 <= i < |p.items| ==> p.items[i].id in o.tags
  {
  }

  /** A successful run lists every entry of `items_list` once, in order,
      with its category from the cache left on disk. */
  lemma RunTagsEveryEntry(url: string, profiles: seq<Profile>, tr: Translations, tags: Tags, inputs: seq<int>,
                          gambling: Gambling)
    requires Run(url, profiles, tr, tags, inputs, gambling).result.Ok?
    ensures var p := Prepare(url, profiles, tr, inputs).value;
      var o := Run(url, profiles, tr, tags, inputs, gambling);
      && |o.result.value.priced| == |p.items|
      && forall i :: 0 <= i < |p.items| ==>
           o.result.value.priced[i].tag.item == p.items[i]
           && o.tags[p.items[i].id] == o.result.value.priced[i].tag.category
  {
    var p := Prepare(url, profiles, tr, inputs).value;
    var session := ClassifyAll(p.items, tags, p.inputs).value;
    var priced := PriceAll(gambling, p.profile.className, session.tagged).value;
    var o := Run(url, profiles, tr, tags, inputs, gambling);
    assert o.tags == session.tags && o.result.value.priced == priced;
  }

  /** Running again with the cache a run left, the same profile choice and
      no further answers asks nothing and tags every entry the same way. */
  lemma RunAgainAsksNothing(url: string, profiles: seq<Profile>, tr: Translations, tags: Tags, inputs: seq<int>,
                            gambling: Gambling)
    requires Run(url, profiles, tr, tags, inputs, gambling).result.Ok?
    ensures var o := Run(url, profiles, tr, tags, inputs, gambling);
      var again := Run(url, profiles, tr, o.tags, [inputs[0]], gambling);
      && again.tags == o.tags
      && again.result == o.result
  {
    var p := Prepare(url, profiles, tr, inputs).value;
    PrepareReadsOneAnswer(CheckUrl(url), profiles, tr, inputs, [inputs[0]]);
    assert Prepare(url, profiles, tr, [inputs[0]]) == Ok(p.(inputs := []));
    ClassifyTwice(p.items, tags, p.inputs, []);
    var o := Run(url, profiles, tr, tags, inputs, gambling);
    assert o == Finish(p, tags, gambling, ItemsFolder);
    assert Run(url, profiles, tr, o.tags, [inputs[0]], gambling) == Finish(p.(inputs := []), o.tags, gambling, ItemsFolder);
  }

  /** Preparing a run reads only the profile choice: other answers after
      the same first one give the same prepared run. */
  lemma PrepareReadsOneAnswer(check: Result<string>, profiles: seq<Profile>, tr: Translations, inputs: seq<int>,
                              later: seq<int>)
    requires PrepareAfterCheck(check, profiles, tr, inputs).Ok?
    requires |later| >= 1 && later[0] == inputs[0]
    ensures PrepareAfterCheck(check, profiles, tr, later)
         == Ok(PrepareAfterCheck(check, profiles, tr, inputs).value.(inputs := later[1..]))
  {
    assert ChooseProfile(profiles, later) == Ok((ChooseProfile(profiles, inputs).value.0, later[1..]));
  }
}
