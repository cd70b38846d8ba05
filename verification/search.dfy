/**
 * The query parameters `search_tenders` sends to the procurement search API.
 * The HTTP call itself is not modelled: its reply reaches the check cycle as an input.
 */
module Search {
  import opened Wrappers

  /** The keys the parameter dictionary can hold; `Name` gives each one's spelling on the wire. */
  datatype Key = Query | PageSize | PageNumber | SortBy | SortDirection | Region | PriceTo

  function Name(k: Key): string {
    match k
    case Query => "query"
    case PageSize => "pageSize"
    case PageNumber => "pageNumber"
    case SortBy => "sortBy"
    case SortDirection => "sortDirection"
    case Region => "region"
    case PriceTo => "priceTo"
  }

  /** A parameter value: text, or a number (the page size and number, and the price ceiling). */
  datatype ParamValue = Text(text: string) | Number(number: int)

  /** One `key=value` pair of the query string; the order of the list is the order sent. */
  datatype Param = Param(key: Key, value: ParamValue)

  const ItemsPerPage: int := 10
  const FirstPage: int := 1

  /** The value stored under `key`, as a dictionary lookup would find it. */
  function Lookup(ps: seq<Param>, key: Key): Option<ParamValue> {
    if ps == [] then None
    else if ps[0].key == key then Some(ps[0].value)
    else Lookup(ps[1..], key)
  }

  function Keys(ps: seq<Param>): set<Key> {
    set k | 0 <= k < |ps| :: ps[k].key
  }

  ghost predicate DistinctKeys(ps: seq<Param>) {
    forall a, b :: 0 <= a < b < |ps| ==> ps[a].key != ps[b].key
  }

  /** Python truthiness of the optional region: `None` and `""` are false. */
  predicate RegionGiven(region: Option<string>) {
    region.Some? && region.value != ""
  }

  /** Python truthiness of the optional price: `None` and `0` are false. */
  predicate PriceGiven(maxPrice: Option<nat>) {
    maxPrice.Some? && maxPrice.value != 0
  }

  /** The parameters of one search, in the order they are added. */
  function QueryParams(keywords: string, region: Option<string>, maxPrice: Option<nat>): seq<Param> {
    var withRegion := WithRegion(keywords, region);
    if PriceGiven(maxPrice) then withRegion + [Param(PriceTo, Number(maxPrice.value))] else withRegion
  }

  /** The fixed parameters, followed by the region when one is given. */
  function WithRegion(keywords: string, region: Option<string>): seq<Param> {
    var fixed := FixedParams(keywords);
    if RegionGiven(region) then fixed + [Param(Region, Text(region.value))] else fixed
  }

  /** The five parameters every search carries, in the order they are written. */
  function FixedParams(keywords: string): seq<Param> {
    [ Param(Query, Text(keywords)),
      Param(PageSize, Number(ItemsPerPage)),
      Param(PageNumber, Number(FirstPage)),
      Param(SortBy, Text("publicationDate")),
      Param(SortDirection, Text("desc")) ]
  }

  const FixedKeys: set<Key> := {Query, PageSize, PageNumber, SortBy, SortDirection}

  /** Every search carries the keywords as `query`, asks for page 1 of 10 items, newest
      publication first, and carries `region` and `priceTo` exactly when they are given (truthy);
      no key appears twice. */
  lemma QueryParamsSpec(keywords: string, region: Option<string>, maxPrice: Option<nat>)
    ensures DistinctKeys(QueryParams(keywords, region, maxPrice))
    ensures Keys(QueryParams(keywords, region, maxPrice)) == FixedKeys
              + (if RegionGiven(region) then {Region} else {})
              + (if PriceGiven(maxPrice) then {PriceTo} else {})
    ensures Lookup(QueryParams(keywords, region, maxPrice), Query) == Some(Text(keywords))
    ensures Lookup(QueryParams(keywords, region, maxPrice), PageSize) == Some(Number(ItemsPerPage))
    ensures Lookup(QueryParams(keywords, region, maxPrice), PageNumber) == Some(Number(FirstPage))
    ensures Lookup(QueryParams(keywords, region, maxPrice), SortBy) == Some(Text("publicationDate"))
    ensures Lookup(QueryParams(keywords, region, maxPrice), SortDirection) == Some(Text("desc"))
    ensures Lookup(QueryParams(keywords, region, maxPrice), Region)
            == if RegionGiven(region) then Some(Text(region.value)) else None
    ensures Lookup(QueryParams(keywords, region, maxPrice), PriceTo)
            == if PriceGiven(maxPrice) then Some(Number(maxPrice.value)) else None
  {
    WithRegionFacts(keywords, region);
    if PriceGiven(maxPrice) {
      Extend(WithRegion(keywords, region), Param(PriceTo, Number(maxPrice.value)));
    }
  }

  lemma WithRegionFacts(keywords: string, region: Option<string>)
    ensures DistinctKeys(WithRegion(keywords, region))
    ensures Keys(WithRegion(keywords, region)) == FixedKeys + (if RegionGiven(region) then {Region} else {})
    ensures Lookup(WithRegion(keywords, region), Query) == Some(Text(keywords))
    ensures Lookup(WithRegion(keywords, region), PageSize) == Some(Number(ItemsPerPage))
    ensures Lookup(WithRegion(keywords, region), PageNumber) == Some(Number(FirstPage))
    ensures Lookup(WithRegion(keywords, region), SortBy) == Some(Text("publicationDate"))
    ensures Lookup(WithRegion(keywords, region), SortDirection) == Some(Text("desc"))
    ensures Lookup(WithRegion(keywords, region), Region)
            == if RegionGiven(region) then Some(Text(region.value)) else None
    ensures Lookup(WithRegion(keywords, region), PriceTo) == None
  {
    FixedParamsFacts(keywords);
    if RegionGiven(region) {
      Extend(FixedParams(keywords), Param(Region, Text(region.value)));
    }
  }

  lemma FixedParamsFacts(keywords: string)
    ensures DistinctKeys(FixedParams(keywords))
    ensures Keys(FixedParams(keywords)) == FixedKeys
    ensures Lookup(FixedParams(keywords), Query) == Some(Text(keywords))
    ensures Lookup(FixedParams(keywords), PageSize) == Some(Number(ItemsPerPage))
    ensures Lookup(FixedParams(keywords), PageNumber) == Some(Number(FirstPage))
    ensures Lookup(FixedParams(keywords), SortBy) == Some(Text("publicationDate"))
    ensures Lookup(FixedParams(keywords), SortDirection) == Some(Text("desc"))
    ensures Lookup(FixedParams(keywords), Region) == None
    ensures Lookup(FixedParams(keywords), PriceTo) == None
  {
    var ps := FixedParams(keywords);
    assert ps[0].key == Query && ps[1].key == PageSize && ps[2].key == PageNumber;
    assert ps[3].key == SortBy && ps[4].key == SortDirection;
    LookupAt(ps, 0);
    LookupAt(ps, 1);
    LookupAt(ps, 2);
    LookupAt(ps, 3);
    LookupAt(ps, 4);
    LookupAbsent(ps, Region);
    LookupAbsent(ps, PriceTo);
  }

  /** Appending a parameter under a key not yet present keeps the keys distinct, adds the key,
      makes it find the new value and leaves every other lookup as it was. */
  lemma Extend(ps: seq<Param>, p: Param)
    requires DistinctKeys(ps) && p.key !in Keys(ps)
    ensures DistinctKeys(ps + [p])
    ensures Keys(ps + [p]) == Keys(ps) + {p.key}
    ensures Lookup(ps + [p], p.key) == Some(p.value)
    ensures forall k :: k != p.key ==> Lookup(ps + [p], k) == Lookup(ps, k)
  {
    KeysAppend(ps, p);
    LookupAppend(ps, p.key, p.value);
    var qs := ps + [p];
    forall a, b | 0 <= a < b < |qs| ensures qs[a].key != qs[b].key {
      if b == |ps| {
        assert qs[a] == ps[a];
        assert ps[a].key in Keys(ps);
      }
    }
  }

  /** With distinct keys, looking up the key at any position finds that position's value. */
  lemma {:induction false} LookupAt(ps: seq<Param>, k: nat)
    requires DistinctKeys(ps) && k < |ps|
    ensures Lookup(ps, ps[k].key) == Some(ps[k].value)
  {
    if k > 0 {
      assert ps[0].key != ps[k].key;
      assert ps[1..][k - 1] == ps[k];
      LookupAt(ps[1..], k - 1);
    }
  }

  lemma KeysAppend(ps: seq<Param>, p: Param)
    ensures Keys(ps + [p]) == Keys(ps) + {p.key}
  {
    var qs := ps + [p];
    assert qs[|ps|] == p;
    forall k | 0 <= k < |ps| ensures qs[k] == ps[k] { }
  }

  lemma {:induction false} LookupAbsent(ps: seq<Param>, key: Key)
    requires key !in Keys(ps)
    ensures Lookup(ps, key) == None
  {
    if ps != [] {
      assert Keys(ps[1..]) <= Keys(ps) by {
        forall k | 0 <= k < |ps[1..]| ensures ps[1..][k].key in Keys(ps) {
          assert ps[1..][k] == ps[k + 1];
        }
      }
      LookupAbsent(ps[1..], key);
    }
  }

  /** Adding a new key at the end: earlier lookups are unaffected and the new key finds its value. */
  lemma {:induction false} LookupAppend(ps: seq<Param>, key: Key, v: ParamValue)
    requires key !in Keys(ps)
    ensures Lookup(ps + [Param(key, v)], key) == Some(v)
    ensures forall k :: k != key ==> Lookup(ps + [Param(key, v)], k) == Lookup(ps, k)
  {
    if ps == [] {
    } else {
      assert (ps + [Param(key, v)])[1..] == ps[1..] + [Param(key, v)];
      assert Keys(ps[1..]) <= Keys(ps) by {
        forall k | 0 <= k < |ps[1..]| ensures ps[1..][k].key in Keys(ps) {
          assert ps[1..][k] == ps[k + 1];
        }
      }
      assert ps[0].key in Keys(ps);
      LookupAppend(ps[1..], key, v);
    }
  }

  /** The keys are sent under seven different names. */
  lemma NamesDistinct(a: Key, b: Key)
    requires a != b
    ensures Name(a) != Name(b)
  {
    assert Name(SortBy)[0] != Name(Region)[0];
  }

  /** A price of zero, as the message "… 0" or "… 000" yields, sends no `priceTo` at all. */
  lemma ZeroPriceIsOmitted(keywords: string, region: Option<string>)
    ensures Lookup(QueryParams(keywords, region, Some(0)), PriceTo) == None
    ensures PriceTo !in Keys(QueryParams(keywords, region, Some(0)))
  {
    QueryParamsSpec(keywords, region, Some(0));
  }
}
