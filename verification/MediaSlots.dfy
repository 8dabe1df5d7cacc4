/**
 The ten image columns of a ShopDeck export row.

 The adapter fills the columns with two index-driven loops over a mutable list. The loops are proved
 against an order-based reading of the same rule: put the images in display order, keep the first
 two as they are, and from the third on keep first occurrences only.
 */
module MediaSlots {

  const SLOTS: nat := 10

  function Min(a: nat, b: nat): nat { if a < b then a else b }

  /** The truthy URLs of a list, in order. */
  function Present(urls: seq<string>): (r: seq<string>)
    ensures forall u :: u in r <==> u in urls && u != ""
  {
    if urls == [] then []
    else if urls[0] == "" then Present(urls[1..])
    else [urls[0]] + Present(urls[1..])
  }

  /** Display order: at most two SKU images, then the family's images, then the leftover SKU images. */
  function DisplayOrder(sku: seq<string>, product: seq<string>): seq<string> {
    sku[..Min(2, |sku|)] + product + sku[Min(2, |sku|)..]
  }

  /** The entries of `xs` that occur neither in `lead` nor earlier in `xs`. */
  function FirstOccurrences(xs: seq<string>, lead: seq<string>): seq<string> {
    if xs == [] then []
    else
      var n := |xs| - 1;
      FirstOccurrences(xs[..n], lead) + (if xs[n] in lead || xs[n] in xs[..n] then [] else [xs[n]])
  }

  /** A row of filled columns after offering it the images `xs` one by one. */
  function Offer(row: seq<string>, xs: seq<string>): (r: seq<string>)
    ensures row <= r && |r| <= |row| + |xs|
    ensures |row| <= SLOTS ==> |r| <= SLOTS
  {
    if xs == [] then row
    else
      var r := Offer(row, xs[..|xs| - 1]);
      if |r| >= SLOTS || xs[|xs| - 1] in r then r else r + [xs[|xs| - 1]]
  }

  function Lead(order: seq<string>): seq<string> { order[..Min(2, |order|)] }

  function Rest(order: seq<string>): seq<string> { order[Min(2, |order|)..] }

  function Filled(skuMedia: seq<string>, productMedia: seq<string>): (r: seq<string>)
    ensures |r| <= SLOTS
  {
    var order := DisplayOrder(Present(skuMedia), Present(productMedia));
    Offer(Lead(order), Rest(order))
  }

  function Padded(row: seq<string>): (r: seq<string>)
    requires |row| <= SLOTS
    ensures |r| == SLOTS
  {
    row + seq(SLOTS - |row|, _ => "")
  }

  function Projection(skuMedia: seq<string>, productMedia: seq<string>): seq<string> {
    Padded(Filled(skuMedia, productMedia))
  }

  // ---------------------------------------------------------------- the slot-filling loops

  lemma {:induction false} OfferSaturates(row: seq<string>, xs: seq<string>, ys: seq<string>)
    requires |Offer(row, xs)| >= SLOTS
    ensures Offer(row, xs + ys) == Offer(row, xs)
  {
    if ys == [] {
      assert xs + ys == xs;
    } else {
      var n := |ys| - 1;
      OfferSaturates(row, xs, ys[..n]);
      assert (xs + ys)[..|xs + ys| - 1] == xs + ys[..n];
    }
  }

  lemma {:induction false} OfferAppend(row: seq<string>, xs: seq<string>, ys: seq<string>)
    ensures Offer(row, xs + ys) == Offer(Offer(row, xs), ys)
  {
    if ys == [] {
      assert xs + ys == xs;
    } else {
      var n := |ys| - 1;
      OfferAppend(row, xs, ys[..n]);
      assert (xs + ys)[..|xs + ys| - 1] == xs + ys[..n];
    }
  }

  /** The columns hold `row` and then blanks. */
  ghost predicate Holds(cells: seq<string>, row: seq<string>) {
    |row| <= |cells| == SLOTS && row <= cells && forall i :: |row| <= i < SLOTS ==> cells[i] == ""
  }

  lemma HoldsNext(cells: seq<string>, row: seq<string>, url: string)
    requires Holds(cells, row) && |row| < SLOTS
    ensures Holds(cells[|row| := url], row + [url])
  {
  }

  lemma OfferNext(row: seq<string>, images: seq<string>, from: nat, used: nat)
    requires from <= used < |images|
    ensures var r := Offer(row, images[from..used]);
            Offer(row, images[from..used + 1]) == if |r| >= SLOTS || images[used] in r then r else r + [images[used]]
  {
    assert images[from..used + 1][..used - from] == images[from..used];
  }

  /** Both loops of the source: offer `images[from..]` to the columns filled so far. */
  method FillFrom(slots: array<string>, filled: nat, images: seq<string>, from: nat, ghost row: seq<string>)
    returns (slot: nat)
    requires slots.Length == SLOTS && from <= |images|
    requires |row| == filled && Holds(slots[..], row)
    modifies slots
    ensures slot == |Offer(row, images[from..])| && Holds(slots[..], Offer(row, images[from..]))
  {
    slot := filled;
    var used := from;
    ghost var shown := row;
    assert images[from..from] == [];
    while slot < 10 && used < |images|
      invariant from <= used <= |images|
      invariant shown == Offer(row, images[from..used]) && slot == |shown| && Holds(slots[..], shown)
    {
      var url := images[used];
      OfferNext(row, images, from, used);
      assert slots[..slot] == shown;
      if url !in slots[..slot] {
        HoldsNext(slots[..], shown, url);
        slots[slot] := url;
        slot, shown := slot + 1, shown + [url];
      }
      used := used + 1;
    }
    OfferRest(row, images, from, used);
  }

  lemma OfferRest(row: seq<string>, images: seq<string>, from: nat, used: nat)
    requires from <= used <= |images|
    requires used == |images| || |Offer(row, images[from..used])| >= SLOTS
    ensures Offer(row, images[from..used]) == Offer(row, images[from..])
  {
    assert images[from..used] + images[used..] == images[from..];
    if used < |images| {
      OfferSaturates(row, images[from..used], images[used..]);
    } else {
      assert images[from..used] == images[from..];
    }
  }

  /** Columns 1 and 2, and how many images of each list they used. */
  method PlaceLead(slots: array<string>, sku: seq<string>, product: seq<string>) returns (usedSku: nat, usedProduct: nat)
    requires Holds(slots[..], [])
    modifies slots
    ensures usedSku == Min(2, |sku|) && usedProduct == Min(2 - usedSku, |product|)
    ensures Holds(slots[..], sku[..usedSku] + product[..usedProduct])
  {
    usedSku, usedProduct := 0, 0;
    if sku != [] {
      slots[0] := sku[0];
      usedSku := 1;
    } else if product != [] {
      slots[0] := product[0];
      usedProduct := 1;
    }
    if |sku| > 1 {
      slots[1] := sku[1];
      usedSku := 2;
    } else if usedProduct < |product| {
      slots[1] := product[usedProduct];
      usedProduct := usedProduct + 1;
    }
  }

  method ProjectMediaSlots(skuMedia: seq<string>, productMedia: seq<string>) returns (slots: array<string>)
    ensures fresh(slots) && slots[..] == Projection(skuMedia, productMedia)
  {
    slots := new string[10](_ => "");
    var sku, product := Present(skuMedia), Present(productMedia);
    var usedSku, usedProduct := PlaceLead(slots, sku, product);
    ghost var lead := sku[..usedSku] + product[..usedProduct];
    LeadAndRest(sku, product);
    OfferAppend(lead, product[usedProduct..], sku[usedSku..]);
    var slot := FillFrom(slots, usedSku + usedProduct, product, usedProduct, lead);
    slot := FillFrom(slots, slot, sku, usedSku, Offer(lead, product[usedProduct..]));
  }

  lemma LeadAndRest(sku: seq<string>, product: seq<string>)
    ensures var order, k := DisplayOrder(sku, product), Min(2, |sku|);
            var m := Min(2 - k, |product|);
            && Lead(order) == sku[..k] + product[..m]
            && Rest(order) == product[m..] + sku[k..]
  {
  }

  // ---------------------------------------------------------------- what the projection promises

  lemma {:induction false} FirstOccurrencesMembers(xs: seq<string>, lead: seq<string>)
    ensures forall u :: u in FirstOccurrences(xs, lead) <==> u in xs && u !in lead
  {
    if xs != [] {
      var n := |xs| - 1;
      FirstOccurrencesMembers(xs[..n], lead);
      assert xs == xs[..n] + [xs[n]];
    }
  }

  /** What is left of `kept` behind the leading columns of a row. */
  function Capped(lead: seq<string>, kept: seq<string>): seq<string>
    requires |lead| <= SLOTS
  {
    lead + kept[..Min(SLOTS - |lead|, |kept|)]
  }

  lemma CappedSnoc(lead: seq<string>, kept: seq<string>, x: string)
    requires |lead| <= SLOTS
    ensures if |kept| < SLOTS - |lead| then Capped(lead, kept) == lead + kept && Capped(lead, kept + [x]) == lead + kept + [x]
            else |Capped(lead, kept)| == SLOTS && Capped(lead, kept + [x]) == Capped(lead, kept)
  {
    if |kept| < SLOTS - |lead| {
      assert kept[..|kept|] == kept && (kept + [x])[..|kept| + 1] == kept + [x];
      assert lead + (kept + [x]) == lead + kept + [x];
    } else {
      assert (kept + [x])[..SLOTS - |lead|] == kept[..SLOTS - |lead|];
    }
  }

  /** The loops keep exactly the first occurrences, up to the capacity of the row. */
  lemma {:induction false} OfferKeepsFirstOccurrences(lead: seq<string>, xs: seq<string>)
    requires |lead| <= SLOTS
    ensures Offer(lead, xs) == Capped(lead, FirstOccurrences(xs, lead))
  {
    if xs != [] {
      var n := |xs| - 1;
      OfferKeepsFirstOccurrences(lead, xs[..n]);
      FirstOccurrencesMembers(xs[..n], lead);
      OneMoreOffered(lead, FirstOccurrences(xs[..n], lead), xs[..n], xs[n]);
    }
  }

  lemma OneMoreOffered(lead: seq<string>, kept: seq<string>, seen: seq<string>, x: string)
    requires |lead| <= SLOTS && forall u :: u in kept <==> u in seen && u !in lead
    ensures var r := Capped(lead, kept);
            (if |r| >= SLOTS || x in r then r else r + [x])
            == Capped(lead, kept + if x in lead || x in seen then [] else [x])
  {
    CappedSnoc(lead, kept, x);
    assert kept + [] == kept;
    assert x in lead + kept <==> x in lead || x in seen;
  }

  /** From column `k` on, no entry repeats an earlier one. */
  predicate NoRepeatFrom(row: seq<string>, k: nat) {
    forall j :: k <= j < |row| ==> row[j] !in row[..j]
  }

  lemma {:induction false} OfferAddsNoRepeat(row: seq<string>, xs: seq<string>)
    ensures NoRepeatFrom(Offer(row, xs), |row|)
  {
    if xs != [] {
      OfferAddsNoRepeat(row, xs[..|xs| - 1]);
      var r, r' := Offer(row, xs[..|xs| - 1]), Offer(row, xs);
      forall j | |row| <= j < |r'| ensures r'[j] !in r'[..j] {
        assert r'[..j] == r[..j];
        assert j == |r| ==> r[..j] == r;
      }
    }
  }

  lemma {:induction false} OfferedImages(row: seq<string>, xs: seq<string>)
    ensures forall u :: u in Offer(row, xs) ==> u in row || u in xs
  {
    if xs != [] {
      OfferedImages(row, xs[..|xs| - 1]);
      assert xs == xs[..|xs| - 1] + [xs[|xs| - 1]];
    }
  }

  lemma OrderHoldsThePresent(skuMedia: seq<string>, productMedia: seq<string>)
    ensures var order := DisplayOrder(Present(skuMedia), Present(productMedia));
            && order == Lead(order) + Rest(order)
            && forall u :: u in order <==> u in Present(skuMedia) || u in Present(productMedia)
  {
  }

  /** Filled columns form a prefix, hold only input images, and none repeats from the third on. */
  lemma SlotsAreAPrefixOfInputs(skuMedia: seq<string>, productMedia: seq<string>)
    ensures
      var slots := Projection(skuMedia, productMedia);
      && (forall i, j :: 0 <= i < j < SLOTS && slots[i] == "" ==> slots[j] == "")
      && (forall i :: 0 <= i < SLOTS && slots[i] != "" ==> slots[i] in skuMedia || slots[i] in productMedia)
      && (forall j :: 2 <= j < SLOTS && slots[j] != "" ==> slots[j] !in slots[..j])
  {
    var order := DisplayOrder(Present(skuMedia), Present(productMedia));
    OrderHoldsThePresent(skuMedia, productMedia);
    OfferedImages(Lead(order), Rest(order));
    OfferAddsNoRepeat(Lead(order), Rest(order));
    var row, slots := Filled(skuMedia, productMedia), Projection(skuMedia, productMedia);
    forall i | 0 <= i < |row|
      ensures row[i] != "" && (row[i] in skuMedia || row[i] in productMedia)
    {
      assert row[i] in row;
      assert row[i] in order;
    }
    if |order| < 2 { assert Rest(order) == []; }
    forall j | 2 <= j < SLOTS && slots[j] != "" ensures slots[j] !in slots[..j] {
      assert slots[..j] == row[..j];
    }
  }

  lemma {:induction false} OfferDropsOnlyWhenFull(row: seq<string>, xs: seq<string>)
    requires |Offer(row, xs)| < SLOTS
    ensures forall u :: u in xs ==> u in Offer(row, xs)
  {
    if xs != [] {
      OfferDropsOnlyWhenFull(row, xs[..|xs| - 1]);
      assert xs == xs[..|xs| - 1] + [xs[|xs| - 1]];
    }
  }

  /** When the last column is empty nothing was dropped: every non-empty input image is shown. */
  lemma NothingDroppedWhenRoomRemains(skuMedia: seq<string>, productMedia: seq<string>, url: string)
    requires Projection(skuMedia, productMedia)[SLOTS - 1] == ""
    requires url != "" && (url in skuMedia || url in productMedia)
    ensures url in Projection(skuMedia, productMedia)
  {
    var sku, product := Present(skuMedia), Present(productMedia);
    var order := DisplayOrder(sku, product);
    OrderHoldsThePresent(skuMedia, productMedia);
    OfferedImages(Lead(order), Rest(order));
    assert url in order;
    var row := Filled(skuMedia, productMedia);
    forall i | 0 <= i < |row| ensures row[i] != "" {
      assert row[i] in row;
      assert row[i] in order;
    }
    OfferDropsOnlyWhenFull(Lead(order), Rest(order));
  }

  lemma {:induction false} OfferAddsOnly(row: seq<string>, xs: seq<string>)
    ensures forall i :: |row| <= i < |Offer(row, xs)| ==> Offer(row, xs)[i] in xs
  {
    if xs != [] {
      OfferAddsOnly(row, xs[..|xs| - 1]);
      assert xs == xs[..|xs| - 1] + [xs[|xs| - 1]];
    }
  }

  /** Offering `later` and then `leftover`: the added columns split where the family's images end. */
  lemma OfferSplits(lead: seq<string>, later: seq<string>, leftover: seq<string>, first: seq<string>, row: seq<string>)
    requires first == Offer(lead, later) && row == Offer(first, leftover)
    ensures forall i :: |lead| <= i < |first| ==> row[i] in later
    ensures forall i :: |first| <= i < |row| ==> row[i] !in later
  {
    OfferAddsOnly(lead, later);
    assert forall i :: |lead| <= i < |first| ==> row[i] == first[i];
    OfferAddsNoRepeat(first, leftover);
    if |first| < SLOTS {
      OfferDropsOnlyWhenFull(lead, later);
      forall i | |first| <= i < |row| ensures row[i] !in later {
        assert row[..i] == first + row[|first|..i];
      }
    } else {
      OfferSaturates(lead, later, leftover);
      OfferAppend(lead, later, leftover);
    }
  }

  /** Columns 3 to `m` hold images of `family`; the filled columns after `m` hold none. */
  predicate FamilyEndsAt(row: seq<string>, family: seq<string>, m: nat) {
    && (forall i :: 2 <= i < m && i < |row| ==> row[i] in family)
    && (forall i :: m <= i < |row| && row[i] != "" ==> row[i] !in family)
  }

  lemma LeadThenFamilyThenLeftovers(lead: seq<string>, product: seq<string>, k: nat, leftover: seq<string>)
    requires k <= |lead| == 2 && 2 - k <= |product| && lead[k..] == product[..2 - k]
    ensures FamilyEndsAt(Offer(Offer(lead, product[2 - k..]), leftover), product, |Offer(lead, product[2 - k..])|)
  {
    var later := product[2 - k..];
    var first := Offer(lead, later);
    var row := Offer(first, leftover);
    OfferSplits(lead, later, leftover, first, row);
    forall i | 2 <= i < |first| ensures row[i] in product {
      assert row[i] in later;
      assert product == product[..2 - k] + later;
    }
    OfferAppend(lead, later, leftover);
    OfferAddsNoRepeat(lead, later + leftover);
    assert lead == row[..2];
    forall i | |first| <= i < |row| ensures row[i] !in product {
      if row[i] in product { LaterImage(row, lead, product, k, i); }
    }
  }

  lemma RowSplits(sku: seq<string>, product: seq<string>) returns (m: nat)
    ensures 2 <= m <= SLOTS
    ensures var order := DisplayOrder(sku, product); FamilyEndsAt(Offer(Lead(order), Rest(order)), product, m)
  {
    var order := DisplayOrder(sku, product);
    var lead := Lead(order);
    m := 2;
    if |order| > 2 {
      var k := Min(2, |sku|);
      LeadAndRest(sku, product);
      assert lead[k..] == product[..2 - k];
      LeadThenFamilyThenLeftovers(lead, product, k, sku[k..]);
      OfferAppend(lead, product[2 - k..], sku[k..]);
      m := |Offer(lead, product[2 - k..])|;
    } else {
      assert Rest(order) == [];
    }
  }

  /** From the third column on, the family's images come first and none follows a leftover SKU image. */
  lemma FamilyImagesPrecedeLeftovers(skuMedia: seq<string>, productMedia: seq<string>)
    ensures exists m :: 2 <= m <= SLOTS && FamilyEndsAt(Filled(skuMedia, productMedia), productMedia, m)
  {
    var m := RowSplits(Present(skuMedia), Present(productMedia));
    assert FamilyEndsAt(Filled(skuMedia, productMedia), productMedia, m);
  }

  /** A family image found beyond the first two columns is one that does not lead. */
  lemma LaterImage(row: seq<string>, lead: seq<string>, product: seq<string>, k: nat, j: nat)
    requires k <= 2 <= j < |row| && lead == row[..2] && 2 - k <= |product| && lead[k..] == product[..2 - k]
    requires NoRepeatFrom(row, 2) && row[j] in product
    ensures row[j] in product[2 - k..]
  {
  }

  /** The first two columns show the first two images of the display order, where there are that many. */
  lemma LeadingColumns(skuMedia: seq<string>, productMedia: seq<string>)
    ensures
      var slots, order := Projection(skuMedia, productMedia), DisplayOrder(Present(skuMedia), Present(productMedia));
      && (|order| >= 1 ==> slots[0] == order[0])
      && (|order| >= 2 ==> slots[1] == order[1] && slots[1] != "")
      && (|order| < 2 ==> slots[1] == "")
  {
    var order := DisplayOrder(Present(skuMedia), Present(productMedia));
    OrderHoldsThePresent(skuMedia, productMedia);
    OfferedImages(Lead(order), Rest(order));
    if |order| < 2 { assert Rest(order) == []; } else { assert order[1] in order; }
  }

  /** Blank entries are dropped, and the others keep their order. */
  lemma {:induction false} PresentFilters(a: seq<string>, b: seq<string>, u: string)
    ensures Present([]) == [] && Present([u]) == if u == "" then [] else [u]
    ensures Present(a + b) == Present(a) + Present(b)
  {
    if a == [] {
      assert a + b == b;
    } else {
      assert (a + b)[1..] == a[1..] + b;
      PresentFilters(a[1..], b, u);
    }
  }

  function At(images: seq<string>, i: nat): string { if i < |images| then images[i] else "" }

  /** The first two columns: two SKU images, or one and the first family image, or two family images. */
  lemma LeadingImages(skuMedia: seq<string>, productMedia: seq<string>)
    ensures
      var slots, sku, product := Projection(skuMedia, productMedia), Present(skuMedia), Present(productMedia);
      && slots[0] == (if |sku| >= 1 then sku[0] else At(product, 0))
      && slots[1] == (if |sku| >= 2 then sku[1] else if |sku| == 1 then At(product, 0) else At(product, 1))
  {
    LeadingColumns(skuMedia, productMedia);
    OrderStarts(Present(skuMedia), Present(productMedia));
    var order := DisplayOrder(Present(skuMedia), Present(productMedia));
    if order == [] { assert Rest(order) == []; }
  }

  lemma OrderStarts(sku: seq<string>, product: seq<string>)
    ensures var order := DisplayOrder(sku, product);
            && At(order, 0) == (if |sku| >= 1 then sku[0] else At(product, 0))
            && At(order, 1) == (if |sku| >= 2 then sku[1] else if |sku| == 1 then At(product, 0) else At(product, 1))
  {
  }

  /** The first occurrence of `u` comes before any of `v`. */
  ghost predicate Before(images: seq<string>, u: string, v: string) {
    exists a :: 0 <= a <= |images| && u in images[..a] && v !in images[..a]
  }

  lemma {:induction false} OfferKeepsOrder(row: seq<string>, xs: seq<string>, i: nat, j: nat)
    requires |row| <= i < j < |Offer(row, xs)|
    ensures Before(xs, Offer(row, xs)[i], Offer(row, xs)[j])
  {
    var n := |xs| - 1;
    var r := Offer(row, xs[..n]);
    if j < |r| {
      OfferKeepsOrder(row, xs[..n], i, j);
      var a :| 0 <= a <= n && r[i] in xs[..n][..a] && r[j] !in xs[..n][..a];
      assert xs[..n][..a] == xs[..a];
    } else {
      OfferDropsOnlyWhenFull(row, xs[..n]);
      OfferAddsOnly(row, xs[..n]);
      assert r[i] in xs[..n] && xs[n] !in xs[..n];
    }
  }

  lemma {:induction false} BlanksDoNotMatter(images: seq<string>, u: string, v: string)
    requires Before(Present(images), u, v) && v != ""
    ensures Before(images, u, v)
  {
    var p := Present(images);
    var a :| 0 <= a <= |p| && u in p[..a] && v !in p[..a];
    if images[0] == "" {
      BlanksDoNotMatter(images[1..], u, v);
      OneMoreInFront(images, u, v);
    } else if images[0] == u {
      assert u in images[..1] && v !in images[..1];
    } else {
      assert p[..a] == [images[0]] + Present(images[1..])[..a - 1];
      assert u in Present(images[1..])[..a - 1] && v !in Present(images[1..])[..a - 1];
      BlanksDoNotMatter(images[1..], u, v);
      OneMoreInFront(images, u, v);
    }
  }

  lemma OneMoreInFront(images: seq<string>, u: string, v: string)
    requires images != [] && Before(images[1..], u, v) && images[0] != v
    ensures Before(images, u, v)
  {
    var a :| 0 <= a <= |images[1..]| && u in images[1..][..a] && v !in images[1..][..a];
    assert images[..a + 1] == [images[0]] + images[1..][..a];
  }

  lemma PrefixOf(first: seq<string>, second: seq<string>, a: nat)
    requires a <= |first| + |second|
    ensures (first + second)[..a] == if a <= |first| then first[..a] else first + second[..a - |first|]
  {
  }

  /** Of two images behind the lead, in a list that continues one part and then another. */
  lemma OrderWithinParts(lead: seq<string>, first: seq<string>, second: seq<string>, u: string, v: string)
    requires Before(first + second, u, v) && v !in lead
    ensures v in first ==> Before(lead + first, u, v)
    ensures u !in first && v !in first ==> Before(lead + second, u, v)
  {
    var rest := first + second;
    var a :| 0 <= a <= |rest| && u in rest[..a] && v !in rest[..a];
    PrefixOf(first, second, a);
    if v in first {
      PrefixOf(lead, first, |lead| + a);
      assert u in (lead + first)[..|lead| + a] && v !in (lead + first)[..|lead| + a];
    } else if u !in first {
      var b := |lead| + (a - |first|);
      PrefixOf(lead, second, b);
      assert u in (lead + second)[..b] && v !in (lead + second)[..b];
    }
  }

  /** Behind the lead no image of the lead is shown again. */
  lemma BehindTheLead(lead: seq<string>, xs: seq<string>, i: nat)
    requires |lead| <= i < |Offer(lead, xs)|
    ensures Offer(lead, xs)[i] !in lead
  {
    var row := Offer(lead, xs);
    OfferAddsNoRepeat(lead, xs);
    assert row[..i] == lead + row[|lead|..i];
  }

  /** The row for a lead of `k` SKU images and `m` family images. */
  lemma RowKeepsTheOrder(sku: seq<string>, product: seq<string>, k: nat, m: nat, i: nat, j: nat)
    requires k <= |sku| && m <= |product|
    requires |sku[..k] + product[..m]| <= i < j < |Offer(sku[..k] + product[..m], product[m..] + sku[k..])|
    ensures var row := Offer(sku[..k] + product[..m], product[m..] + sku[k..]);
            && (row[j] in product ==> Before(product, row[i], row[j]))
            && (row[i] !in product && row[j] !in product ==> Before(sku, row[i], row[j]))
  {
    var lead, rest := sku[..k] + product[..m], product[m..] + sku[k..];
    var u, v := Offer(lead, rest)[i], Offer(lead, rest)[j];
    OfferKeepsOrder(lead, rest, i, j);
    BehindTheLead(lead, rest, j);
    OrderWithinParts(product[..m], product[m..], sku[k..], u, v);
    OrderWithinParts(sku[..k], product[m..], sku[k..], u, v);
    assert product[..m] + product[m..] == product && sku[..k] + sku[k..] == sku;
  }

  /** From the third column on, the family's images keep their order, and so do the leftover SKU images. */
  lemma ImagesKeepTheirOrder(skuMedia: seq<string>, productMedia: seq<string>, i: nat, j: nat)
    requires 2 <= i < j < |Filled(skuMedia, productMedia)|
    ensures var row := Filled(skuMedia, productMedia);
            && row[i] == Projection(skuMedia, productMedia)[i] && row[j] == Projection(skuMedia, productMedia)[j]
            && (row[j] in productMedia && row[j] != "" ==> Before(productMedia, row[i], row[j]))
            && (row[i] !in productMedia && row[j] !in productMedia && row[j] != "" ==> Before(skuMedia, row[i], row[j]))
  {
    var sku, product, row := Present(skuMedia), Present(productMedia), Filled(skuMedia, productMedia);
    var k := Min(2, |sku|);
    LeadAndRest(sku, product);
    RowKeepsTheOrder(sku, product, k, Min(2 - k, |product|), i, j);
    if row[j] != "" && row[j] in productMedia { BlanksDoNotMatter(productMedia, row[i], row[j]); }
    if row[j] != "" && row[i] !in productMedia && row[j] !in productMedia { BlanksDoNotMatter(skuMedia, row[i], row[j]); }
  }

  /**
   The channel document says images are deduplicated. The code exempts the first two columns, so a row
   is free of repeats exactly when the first two images of the display order differ, or there are not two.
   */
  lemma RepeatsOnlyInTheFirstTwo(skuMedia: seq<string>, productMedia: seq<string>)
    ensures
      var slots, order := Projection(skuMedia, productMedia), DisplayOrder(Present(skuMedia), Present(productMedia));
      (forall j :: 0 <= j < SLOTS && slots[j] != "" ==> slots[j] !in slots[..j])
      <==> (|order| < 2 || order[0] != order[1])
  {
    SlotsAreAPrefixOfInputs(skuMedia, productMedia);
    LeadingColumns(skuMedia, productMedia);
    var slots := Projection(skuMedia, productMedia);
    assert slots[..0] == [] && slots[..1] == [slots[0]];
  }

  /** A row whose first two columns repeat. */
  lemma RepeatedPrimaryImage()
    ensures Projection(["a", "a"], [])[..2] == ["a", "a"]
  {
  }
}
