/** Gambling costs: for every entry of `items_list`, the class's gambling
    table is scanned, and each record with the entry's id sets the
    bloodshard cost `ceil(cost * 10 / chance)` and the death's breath cost
    `ceil(25 / uchance)`; a later record overwrites an earlier one. */
module Costs {
  import opened Wrappers
  import opened Items
  import opened Classify

  /** One record of a class's gambling table. */
  datatype GambleEntry = GambleEntry(id: Id, cost: int, chance: int, uchance: int)

  /** The gambling file: class name to that class's table. */
  type Gambling = map<string, seq<GambleEntry>>

  /** The two cost fields an entry gains. */
  datatype Cost = Cost(bloodshards: int, deathBreaths: int)

  /** An entry of `items_list` after the cost loop; `cost` is absent when no
      record had its id. */
  datatype Priced = Priced(tag: Tagged, cost: Option<Cost>)

  /** `math.ceil(a / b)` on exact quotients. */
  function CeilDiv(a: int, b: int): (q: int)
    requires b != 0
    ensures b > 0 ==> (q - 1) * b < a <= q * b
    ensures b < 0 ==> q * b <= a < (q - 1) * b
  {
    if b > 0 then -((-a) / b) else -(a / (-b))
  }

  /** The ceiling of a positive quotient is at least one, and the exact
      quotient when the division leaves nothing over. */
  lemma CeilDivPositive(a: int, b: int)
    requires a > 0 && b > 0
    ensures CeilDiv(a, b) >= 1
    ensures a % b == 0 ==> CeilDiv(a, b) == a / b
  {
    if a % b == 0 {
      assert a == (a / b) * b;
    }
  }

  /** The costs one record gives, or ZeroDivisionError for a zero chance. */
  function CostOf(e: GambleEntry): (r: Result<Cost>)
    ensures r.Err? <==> e.chance == 0 || e.uchance == 0
    ensures r.Err? ==> r.error == ZeroDivisionError
    ensures r.Ok? ==> r.value == Cost(CeilDiv(e.cost * 10, e.chance), CeilDiv(25, e.uchance))
  {
    if e.chance == 0 || e.uchance == 0 then Err(ZeroDivisionError)
    else Ok(Cost(CeilDiv(e.cost * 10, e.chance), CeilDiv(25, e.uchance)))
  }

  /** For a positive base cost and positive chances both costs are at
      least one; the bloodshard cost is the least number of shards whose
      tenfold chance covers ten times the base cost. */
  lemma CostsAtLeastOne(e: GambleEntry)
    requires e.cost > 0 && e.chance > 0 && e.uchance > 0
    ensures CostOf(e).Ok?
    ensures CostOf(e).value.bloodshards >= 1 && CostOf(e).value.deathBreaths >= 1
    ensures var b := CostOf(e).value.bloodshards;
      (b - 1) * e.chance < e.cost * 10 <= b * e.chance
  {
    CeilDivPositive(e.cost * 10, e.chance);
    CeilDivPositive(25, e.uchance);
  }

  /** The inner loop for one entry id over a class table. */
  function PriceItem(table: seq<GambleEntry>, id: Id, cost: Option<Cost>): Result<Option<Cost>> {
    if table == [] then Ok(cost)
    else if table[0].id == id then
      var c :- CostOf(table[0]);
      PriceItem(table[1..], id, Some(c))
    else PriceItem(table[1..], id, cost)
  }

  /** `i` is the last index of `table` whose id is `id`. */
  predicate LastRecordFor(table: seq<GambleEntry>, id: Id, i: int) {
    && 0 <= i < |table|
    && table[i].id == id
    && forall j :: i < j < |table| ==> table[j].id != id
  }

  /** Every record with the id has non-zero chances. */
  predicate Divisible(table: seq<GambleEntry>, id: Id) {
    forall i :: 0 <= i < |table| && table[i].id == id ==> table[i].chance != 0 && table[i].uchance != 0
  }

  /** The scan fails exactly when a record with the id has a zero chance;
      otherwise the costs come from the last record with the id, and stay
      as they were when no record has it. */
  lemma PriceItemLastMatch(table: seq<GambleEntry>, id: Id, cost: Option<Cost>)
    ensures PriceItem(table, id, cost).Ok? <==> Divisible(table, id)
    ensures PriceItem(table, id, cost).Err? ==> PriceItem(table, id, cost).error == ZeroDivisionError
    ensures (forall i :: 0 <= i < |table| ==> table[i].id != id) ==> PriceItem(table, id, cost) == Ok(cost)
    ensures forall i :: LastRecordFor(table, id, i) && Divisible(table, id) ==>
      PriceItem(table, id, cost) == Ok(Some(CostOf(table[i]).value))
  {
    PriceItemFails(table, id, cost);
    if forall i :: 0 <= i < |table| ==> table[i].id != id {
      PriceItemNoRecord(table, id, cost);
    }
    forall i | LastRecordFor(table, id, i) && Divisible(table, id)
      ensures PriceItem(table, id, cost) == Ok(Some(CostOf(table[i]).value))
    {
      PriceItemLast(table, id, cost, i);
    }
  }

  lemma {:induction false} PriceItemFails(table: seq<GambleEntry>, id: Id, cost: Option<Cost>)
    ensures PriceItem(table, id, cost).Ok? <==> Divisible(table, id)
    ensures PriceItem(table, id, cost).Err? ==> PriceItem(table, id, cost).error == ZeroDivisionError
  {
    if table != [] {
      var rest := table[1..];
      assert forall i :: 0 <= i < |rest| ==> rest[i] == table[i + 1];
      var next := if table[0].id == id && CostOf(table[0]).Ok? then Some(CostOf(table[0]).value) else cost;
      PriceItemFails(rest, id, next);
      if table[0].id == id && CostOf(table[0]).Err? {
        assert !Divisible(table, id);
      } else {
        assert Divisible(table, id) <==> Divisible(rest, id);
      }
    }
  }

  lemma {:induction false} PriceItemNoRecord(table: seq<GambleEntry>, id: Id, cost: Option<Cost>)
    requires forall i :: 0 <= i < |table| ==> table[i].id != id
    ensures PriceItem(table, id, cost) == Ok(cost)
  {
    if table != [] {
      var rest := table[1..];
      assert forall i :: 0 <= i < |rest| ==> rest[i] == table[i + 1];
      PriceItemNoRecord(rest, id, cost);
    }
  }

  lemma {:induction false} PriceItemLast(table: seq<GambleEntry>, id: Id, cost: Option<Cost>, i: int)
    requires LastRecordFor(table, id, i) && Divisible(table, id)
    ensures PriceItem(table, id, cost) == Ok(Some(CostOf(table[i]).value))
  {
    var rest := table[1..];
    assert forall k :: 0 <= k < |rest| ==> rest[k] == table[k + 1];
    if i == 0 {
      assert CostOf(table[0]).Ok?;
      PriceItemNoRecord(rest, id, Some(CostOf(table[0]).value));
    } else {
      assert LastRecordFor(rest, id, i - 1) && Divisible(rest, id);
      var next := if table[0].id == id then Some(CostOf(table[0]).value) else cost;
      PriceItemLast(rest, id, next, i - 1);
    }
  }

  /** The cost loop over `items_list`: the class is looked up once an entry
      is reached (KeyError when it is absent), then each entry is priced. */
  function PriceAll(gambling: Gambling, className: string, tagged: seq<Tagged>): (r: Result<seq<Priced>>)
    ensures r.Ok? <==> (tagged == [] || (className in gambling && PricesAll(gambling[className], tagged)))
    ensures tagged != [] && className !in gambling ==> r == Err(KeyError(className))
    ensures r.Ok? ==> |r.value| == |tagged|
    ensures r.Ok? ==> forall i :: 0 <= i < |tagged| ==>
      r.value[i] == Priced(tagged[i], PriceItem(gambling[className], tagged[i].item.id, None).value)
  {
    if tagged == [] then Ok([])
    else if className !in gambling then Err(KeyError(className))
    else PriceEach(gambling[className], tagged)
  }

  /** No entry's scan divides by zero. */
  predicate PricesAll(table: seq<GambleEntry>, tagged: seq<Tagged>) {
    forall i :: 0 <= i < |tagged| ==> PriceItem(table, tagged[i].item.id, None).Ok?
  }

  function PriceEach(table: seq<GambleEntry>, tagged: seq<Tagged>): (r: Result<seq<Priced>>)
    ensures r.Ok? <==> PricesAll(table, tagged)
    ensures r.Ok? ==> |r.value| == |tagged|
    ensures r.Ok? ==> forall i :: 0 <= i < |tagged| ==>
      r.value[i] == Priced(tagged[i], PriceItem(table, tagged[i].item.id, None).value)
  {
    if tagged == [] then Ok([])
    else
      var c :- PriceItem(table, tagged[0].item.id, None);
      var rest :- PriceEach(table, tagged[1..]);
      assert forall i :: 1 <= i < |tagged| ==> tagged[i] == tagged[1..][i - 1];
      Ok([Priced(tagged[0], c)] + rest)
  }
}
