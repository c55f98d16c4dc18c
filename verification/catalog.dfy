/** The fixed add-on catalog of the invoice form and lookup by id
    (src/app/page.js, `additionalServiceOptions` and its `find`). */
module Catalog {
  import opened Wrappers

  /** One add-on the form offers as a checkbox; prices are whole dollars. */
  datatype ServiceOption = ServiceOption(id: string, title: string, price: nat)

  /** The catalog, in the order the form lists it. */
  const Options: seq<ServiceOption> := [
    ServiceOption("grooming", "Grooming", 15),
    ServiceOption("toys", "Premium Toys", 10),
    ServiceOption("treats", "Special Treats", 8),
    ServiceOption("photo", "Photo Session", 20)
  ]

  /** Every id some option of `opts` carries. */
  function Ids(opts: seq<ServiceOption>): set<string>
  {
    set i | 0 <= i < |opts| :: opts[i].id
  }

  /** The ids of the catalog: the only ids that carry a price. */
  function CatalogIds(): set<string>
  {
    Ids(Options)
  }

  /** No two options share an id. */
  predicate DistinctIds(opts: seq<ServiceOption>)
  {
    forall i, j :: 0 <= i < j < |opts| ==> opts[i].id != opts[j].id
  }

  lemma CatalogIdsDistinct()
    ensures DistinctIds(Options)
    ensures CatalogIds() == {"grooming", "toys", "treats", "photo"}
  {
    assert Options[0].id == "grooming" && Options[1].id == "toys";
    assert Options[2].id == "treats" && Options[3].id == "photo";
  }

  /** The first option whose id is `id`, scanning left to right. */
  function Find(opts: seq<ServiceOption>, id: string): (r: Option<ServiceOption>)
    ensures r.None? <==> id !in Ids(opts)
    ensures r.Some? ==> r.value in opts && r.value.id == id
    ensures r.Some? ==> exists i :: 0 <= i < |opts| && opts[i] == r.value
                                  && forall j :: 0 <= j < i ==> opts[j].id != id
  {
    if |opts| == 0 then None
    else if opts[0].id == id then Some(opts[0])
    else
      var r := Find(opts[1..], id);
      IdsTail(opts);
      if r.Some? then
        var k :| 0 <= k < |opts[1..]| && opts[1..][k] == r.value
                 && forall j :: 0 <= j < k ==> opts[1..][j].id != id;
        assert opts[k + 1] == r.value;
        assert forall j :: 0 <= j < k + 1 ==> opts[j].id != id by {
          forall j | 0 <= j < k + 1 ensures opts[j].id != id {
            if j > 0 { assert opts[j] == opts[1..][j - 1]; }
          }
        }
        r
      else r
  }

  /** The price an id adds: the matching option's price, or 0 when no option
      matches. */
  function Price(opts: seq<ServiceOption>, id: string): (p: nat)
    ensures id !in Ids(opts) ==> p == 0
    ensures DistinctIds(opts) ==>
              forall i :: 0 <= i < |opts| && opts[i].id == id ==> p == opts[i].price
  {
    match Find(opts, id)
    case Some(o) => o.price
    case None => 0
  }

  /** The price of one selected id in this form's catalog. */
  function PriceOf(id: string): nat
  {
    Price(Options, id)
  }

  /** Reference definition of an add-on total: for every catalog option, how
      often its id occurs in the selection, times its price. */
  function Weighted(opts: seq<ServiceOption>, selection: multiset<string>): int
  {
    if |opts| == 0 then 0
    else selection[opts[0].id] * opts[0].price + Weighted(opts[1..], selection)
  }

  lemma {:induction false} WeightedEmpty(opts: seq<ServiceOption>)
    ensures Weighted(opts, multiset{}) == 0
  {
    if |opts| > 0 {
      WeightedEmpty(opts[1..]);
    }
  }

  lemma IdsTail(opts: seq<ServiceOption>)
    requires |opts| > 0
    ensures Ids(opts) == {opts[0].id} + Ids(opts[1..])
  {
  }

  /** Selecting one more `x` raises the reference total by exactly the price
      of `x` (0 when `x` is not in the catalog). */
  lemma {:induction false} WeightedAddOne(opts: seq<ServiceOption>, selection: multiset<string>, x: string)
    requires DistinctIds(opts)
    ensures Weighted(opts, selection + multiset{x}) == Weighted(opts, selection) + Price(opts, x)
  {
    if |opts| > 0 {
      var rest := opts[1..];
      assert DistinctIds(rest) by {
        forall i, j | 0 <= i < j < |rest| ensures rest[i].id != rest[j].id {
          assert rest[i] == opts[i + 1] && rest[j] == opts[j + 1];
        }
      }
      WeightedAddOne(rest, selection, x);
      IdsTail(opts);
      if opts[0].id == x {
        assert Price(opts, x) == opts[0].price;
      } else {
        assert Find(opts, x) == Find(rest, x);
      }
    }
  }

  /** Deselecting every `x` lowers the reference total by the count of `x`
      times its price. */
  lemma {:induction false} WeightedDropAll(opts: seq<ServiceOption>, selection: multiset<string>, x: string)
    requires DistinctIds(opts)
    ensures Weighted(opts, selection[x := 0]) == Weighted(opts, selection) - selection[x] * Price(opts, x)
  {
    if |opts| > 0 {
      var rest := opts[1..];
      assert DistinctIds(rest) by {
        forall i, j | 0 <= i < j < |rest| ensures rest[i].id != rest[j].id {
          assert rest[i] == opts[i + 1] && rest[j] == opts[j + 1];
        }
      }
      WeightedDropAll(rest, selection, x);
      IdsTail(opts);
      if opts[0].id == x {
        assert Price(opts, x) == opts[0].price;
      } else {
        assert Find(opts, x) == Find(rest, x);
      }
    }
  }
}
