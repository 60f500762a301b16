/** The fleet status records the status page is made of (`KEYS`, `get_fleet_data`), built from
  * the `rsync_url` entities a datastore query returns, given here as a sequence. */
module Fleet {
  import opened Values

  /** The columns of the status page, in order; the first holds the entity's key name. */
  const KEYS: seq<string> := ["dropboxrsyncaddress", "contact", "lastsuccessfulcollection",
                              "errorsincelastsuccessful", "lastcollectionattempt",
                              "maxrawfilemtimearchived"]

  /** A fetched entity: the name of its key (the rsync URL) and its properties. */
  datatype Item = Item(name: string, props: map<string, Value>)

  /** One answer of `get_fleet_data`: a dictionary from column name to value. */
  type Record = map<string, Value>

  /** `item.get(k, '')`. */
  function Get(props: map<string, Value>, k: string): (v: Value)
    ensures k !in props ==> v == Str("")
  {
    if k in props then props[k] else Str("")
  }

  /** The value `get_fleet_data` stores under column `k` for `item`. */
  function Field(item: Item, k: string): Value {
    if k == KEYS[0] then Str(item.name) else Get(item.props, k)
  }

  /** The answer for one item: every column of `KEYS`, and nothing else. */
  function Normalise(item: Item): (r: Record)
    ensures r.Keys == set k | k in KEYS
  {
    map k | k in KEYS :: Field(item, k)
  }

  /** The answers for a sequence of items, in order. */
  function Normalised(items: seq<Item>): (rs: seq<Record>)
    ensures |rs| == |items|
  {
    if items == [] then [] else Normalised(items[..|items| - 1]) + [Normalise(items[|items| - 1])]
  }

  lemma KeysDistinct()
    ensures forall i, j :: 0 <= i < j < |KEYS| ==> KEYS[i] != KEYS[j]
  {
    assert KEYS[0][0] == 'd' && KEYS[1][0] == 'c' && KEYS[4][0] == 'l' && KEYS[5][0] == 'm';
    assert KEYS[2][4] == 's' && KEYS[3][0] == 'e' && KEYS[4][4] == 'c';
  }

  /** `get_fleet_data`: one dictionary per item, filled column by column (what each holds is
    * stated by `NormalisedFields`). */
  method GetFleetData(items: seq<Item>) returns (answers: seq<Record>)
    ensures answers == Normalised(items)
  {
    answers := [];
    for i := 0 to |items|
      invariant answers == Normalised(items[..i])
    {
      var item := items[i];
      var answer: Record := map[];
      answer := answer[KEYS[0] := Str(item.name)];
      for j := 1 to |KEYS|
        invariant Filled(item, answer, j)
      {
        FillStep(item, answer, j);
        answer := answer[KEYS[j] := Get(item.props, KEYS[j])];
      }
      FilledAll(item, answer);
      assert items[..i + 1][..i] == items[..i];
      answers := answers + [answer];
    }
    assert items[..|items|] == items;
  }

  /** The first `j` columns of `answer` are those of `item`'s answer, and no others are set. */
  predicate Filled(item: Item, answer: Record, j: nat)
    requires j <= |KEYS|
  {
    && answer.Keys == (set m | 0 <= m < j :: KEYS[m])
    && forall m :: 0 <= m < j ==> answer[KEYS[m]] == Field(item, KEYS[m])
  }

  lemma FillStep(item: Item, answer: Record, j: nat)
    requires 1 <= j < |KEYS| && Filled(item, answer, j)
    ensures Filled(item, answer[KEYS[j] := Get(item.props, KEYS[j])], j + 1)
  {
    KeysDistinct();
    var a := answer[KEYS[j] := Get(item.props, KEYS[j])];
    assert a.Keys == answer.Keys + {KEYS[j]};
    assert (set m | 0 <= m < j + 1 :: KEYS[m]) == (set m | 0 <= m < j :: KEYS[m]) + {KEYS[j]};
  }

  lemma FilledAll(item: Item, answer: Record)
    requires Filled(item, answer, |KEYS|)
    ensures answer == Normalise(item)
  {
    assert answer.Keys == set k | k in KEYS by {
      forall k | k in KEYS ensures k in answer.Keys {
        var m :| 0 <= m < |KEYS| && KEYS[m] == k;
      }
    }
    forall k | k in KEYS ensures answer[k] == Normalise(item)[k] {
      var m :| 0 <= m < |KEYS| && KEYS[m] == k;
    }
  }

  /** Each answer has exactly the columns of `KEYS`: the item's key name first, then its
    * properties, `''` for the ones it lacks. */
  lemma NormalisedFields(items: seq<Item>)
    ensures forall i :: 0 <= i < |items| ==> Normalised(items)[i].Keys == set k | k in KEYS
    ensures forall i :: 0 <= i < |items| ==> Normalised(items)[i][KEYS[0]] == Str(items[i].name)
    ensures forall i, k :: 0 <= i < |items| && k in KEYS[1..] ==>
      Normalised(items)[i][k] == Get(items[i].props, k)
  {
    forall i | 0 <= i < |items|
      ensures Normalised(items)[i].Keys == set k | k in KEYS
      ensures Normalised(items)[i][KEYS[0]] == Str(items[i].name)
      ensures forall k :: k in KEYS[1..] ==> Normalised(items)[i][k] == Get(items[i].props, k)
    {
      NormalisedAt(items, i);
      NormaliseFields(items[i]);
    }
  }

  /** The columns of one answer. */
  lemma NormaliseFields(item: Item)
    ensures Normalise(item)[KEYS[0]] == Str(item.name)
    ensures forall k :: k in KEYS[1..] ==> Normalise(item)[k] == Get(item.props, k)
  {
    forall k | k in KEYS[1..]
      ensures Normalise(item)[k] == Get(item.props, k)
    {
      var m :| 0 <= m < |KEYS| - 1 && KEYS[1..][m] == k;
      KeysDistinct();
      assert KEYS[m + 1] == k;
    }
  }

  /** The answers keep the order of the items. */
  lemma {:induction false} NormalisedAt(items: seq<Item>, i: nat)
    requires i < |items|
    ensures Normalised(items)[i] == Normalise(items[i])
  {
    if i < |items| - 1 {
      NormalisedAt(items[..|items| - 1], i);
    }
  }
}
