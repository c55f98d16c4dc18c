/** The live total of the invoice form (src/app/page.js, `calculateTotal`). */
module Pricing {
  import opened Catalog
  import opened Form

  /** The add-on price as the source computes it: a left-to-right `reduce`
      starting at 0, each id adding its catalog price or 0. */
  function AddOns(services: seq<string>): (total: int)
    ensures total >= 0
  {
    if |services| == 0 then 0
    else AddOns(services[..|services| - 1]) + PriceOf(services[|services| - 1])
  }

  /** The session part of the price: one rate per 30 minutes. */
  function BasePrice(f: FormData): real
  {
    (f.playSessionLength / 30.0) * f.playSessionRate
  }

  /** The total the form shows and submits: the session price plus, for
      every catalog option, its price times how often it was selected. */
  function Total(f: FormData): (r: real)
    ensures r == (f.playSessionLength / 30.0) * f.playSessionRate
                 + Weighted(Options, multiset(f.additionalServices)) as real
  {
    SessionPlusCatalog(f);
    BasePrice(f) + AddOns(f.additionalServices) as real
  }

  lemma SessionPlusCatalog(f: FormData)
    ensures BasePrice(f) + AddOns(f.additionalServices) as real
            == (f.playSessionLength / 30.0) * f.playSessionRate
               + Weighted(Options, multiset(f.additionalServices)) as real
  {
    var w := Weighted(Options, multiset(f.additionalServices));
    assert AddOns(f.additionalServices) == w by { AddOnsCountsCatalog(f.additionalServices); }
    assert BasePrice(f) == (f.playSessionLength / 30.0) * f.playSessionRate;
  }

  /** The reduce equals the reference definition: each catalog option's price
      times how often its id was selected. */
  lemma {:induction false} AddOnsCountsCatalog(services: seq<string>)
    ensures AddOns(services) == Weighted(Options, multiset(services))
  {
    CatalogIdsDistinct();
    if |services| == 0 {
      WeightedEmpty(Options);
    } else {
      var init := services[..|services| - 1];
      var last := services[|services| - 1];
      assert services == init + [last];
      AddOnsCountsCatalog(init);
      WeightedAddOne(Options, multiset(init), last);
    }
  }

  /** With nothing selected the total is the session price alone. */
  lemma EmptySelectionIsBasePrice(f: FormData)
    requires f.additionalServices == []
    ensures Total(f) == (f.playSessionLength / 30.0) * f.playSessionRate
  {
  }

  /** Reordering the selected ids never changes the total. */
  lemma TotalOrderFree(f: FormData, reordered: seq<string>)
    requires multiset(reordered) == multiset(f.additionalServices)
    ensures Total(f.(additionalServices := reordered)) == Total(f)
  {
    var g := f.(additionalServices := reordered);
    assert BasePrice(g) == BasePrice(f);
    assert AddOns(reordered) == AddOns(f.additionalServices) by {
      AddOnsCountsCatalog(reordered);
      AddOnsCountsCatalog(f.additionalServices);
    }
  }

  /** An id outside the catalog, wherever it sits in the list, adds exactly 0. */
  lemma UnknownIdAddsNothing(a: seq<string>, x: string, b: seq<string>)
    requires x !in CatalogIds()
    ensures AddOns(a + [x] + b) == AddOns(a + b)
  {
    CatalogIdsDistinct();
    AddOnsCountsCatalog(a + [x] + b);
    AddOnsCountsCatalog(a + b);
    assert multiset(a + [x] + b) == multiset(a + b) + multiset{x};
    WeightedAddOne(Options, multiset(a + b), x);
  }

  /** Checking a box raises the total by exactly that service's catalog price. */
  lemma CheckAddsPrice(f: FormData, x: string)
    ensures Total(HandleInputChange(f, Checkbox(x, true))) == Total(f) + PriceOf(x) as real
  {
    var g := HandleInputChange(f, Checkbox(x, true));
    var s := f.additionalServices;
    assert g.additionalServices == s + [x];
    assert BasePrice(g) == BasePrice(f);
    assert AddOns(s + [x]) == AddOns(s) + PriceOf(x) by {
      assert (s + [x])[..|s + [x]| - 1] == s;
    }
  }

  /** Unchecking a box lowers the total by its price once per occurrence. */
  lemma UncheckSubtractsPrice(f: FormData, x: string)
    ensures Total(HandleInputChange(f, Checkbox(x, false)))
            == Total(f) - (multiset(f.additionalServices)[x] * PriceOf(x)) as real
  {
    var g := HandleInputChange(f, Checkbox(x, false));
    assert BasePrice(g) == BasePrice(f);
    assert AddOns(g.additionalServices)
           == AddOns(f.additionalServices) - multiset(f.additionalServices)[x] * PriceOf(x) by {
      CatalogIdsDistinct();
      AddOnsCountsCatalog(f.additionalServices);
      AddOnsCountsCatalog(g.additionalServices);
      WeightedDropAll(Options, multiset(f.additionalServices), x);
    }
  }

  /** Editing a name, the e-mail or the notes leaves the total as it was. */
  lemma TextEditKeepsTotal(f: FormData, field: TextField, text: string)
    ensures Total(HandleInputChange(f, TextInput(field, text))) == Total(f)
  {
    var g := HandleInputChange(f, TextInput(field, text));
    assert g.playSessionLength == f.playSessionLength by {
      assert NumberOf(g, PlaySessionLength) == NumberOf(f, PlaySessionLength);
    }
    assert g.playSessionRate == f.playSessionRate by {
      assert NumberOf(g, PlaySessionRate) == NumberOf(f, PlaySessionRate);
    }
    assert BasePrice(g) == BasePrice(f);
    assert AddOns(g.additionalServices) == AddOns(f.additionalServices);
  }

  /** The two examples of the pricing rule: one hour at 25 with grooming and
      treats is 73, half an hour at 25 with nothing else is 25. */
  lemma PricingExamples()
    ensures Total(FormData("", "", "", 60.0, 25.0, ["grooming", "treats"], "")) == 73.0
    ensures Total(FormData("", "", "", 30.0, 25.0, [], "")) == 25.0
  {
    var hour := FormData("", "", "", 60.0, 25.0, ["grooming", "treats"], "");
    assert BasePrice(hour) == 50.0;
    assert AddOns(["grooming", "treats"]) == 23 by {
      CatalogIdsDistinct();
      assert Options[0].id == "grooming" && Options[2].id == "treats";
      assert ["grooming", "treats"][..1] == ["grooming"];
      assert ["grooming"][..0] == [];
    }
  }

  /** A cleared form is priced at one half-hour at the default rate. */
  lemma ClearedTotal(f: FormData)
    ensures Total(Clear(f)) == 25.0
  {
  }
}
