/**
 * Seeding the catalogue: when the product table is empty, three sample lenses
 * are created one after another. A store failure anywhere is caught and only
 * logged, so the rows created before it stay.
 */
module Seed {
  import opened Wrappers
  import JsonArray
  import opened Catalog
  import ProductsRoute

  /** One entry of the sample list, with its image URLs before they are turned into JSON text. */
  datatype Sample = Sample(name: string, description: string, price: int, imageUrls: seq<string>)

  /** The sample list, in the order it is created; prices in cents. */
  const Samples: seq<Sample> := [
    Sample(
      "VR Prescription Lenses - Meta Quest 2",
      "High-quality prescription lenses specifically designed for Meta Quest 2. Features anti-reflective coating and scratch-resistant surface. Easy installation with detailed instructions included.",
      8999,
      ["https://example.com/quest2-lenses-1.jpg", "https://example.com/quest2-lenses-2.jpg"]),
    Sample(
      "VR Prescription Lenses - Meta Quest 3",
      "Latest generation prescription lenses for Meta Quest 3. Enhanced optical clarity with blue light filtering. Perfect fit guaranteed with our precision manufacturing.",
      9999,
      ["https://example.com/quest3-lenses-1.jpg", "https://example.com/quest3-lenses-2.jpg"]),
    Sample(
      "VR Prescription Lenses - PICO 4",
      "Custom prescription lenses for PICO 4 VR headset. Premium optical materials with ultra-thin design. Includes cleaning cloth and storage case.",
      7999,
      ["https://example.com/pico4-lenses-1.jpg"])
  ]

  /** The row data of a sample: its URLs stored as a JSON array text, and active. */
  function SampleRow(s: Sample): (d: ProductData)
    ensures d.name == s.name && d.basePrice == s.price && d.active
    ensures d.images.Some? && JsonArray.Decode(d.images.value) == Some(s.imageUrls)
  {
    JsonArray.RoundTrip(s.imageUrls);
    ProductData(s.name, Some(s.description), s.price, Some(JsonArray.Encode(s.imageUrls)), true)
  }

  /** The rows seeding creates, in order. */
  function SampleProducts(): (r: seq<ProductData>)
    ensures |r| == |Samples| == 3
    ensures forall i :: 0 <= i < |r| ==> r[i] == SampleRow(Samples[i])
  {
    seq(|Samples|, i requires 0 <= i < |Samples| => SampleRow(Samples[i]))
  }

  /** Where the store fails during one seeding run, if at all. */
  datatype StoreFault =
    | NoFault
    | CountFails            // `count()` throws
    | CreateFails(at: nat)  // the `create` of sample number `at` throws

  /**
   * The rows one seeding run adds to a table holding `existing` rows: none when
   * counting fails or the table is not empty, otherwise the samples created
   * before the first failing `create`.
   */
  function SeedPlan(existing: nat, fault: StoreFault): (plan: seq<ProductData>)
    ensures |plan| <= 3 && plan == SampleProducts()[..|plan|]
    ensures plan != [] ==> existing == 0
    ensures fault.NoFault? && existing == 0 ==> plan == SampleProducts()
  {
    if fault.CountFails? || existing > 0 then []
    else if fault.CreateFails? && fault.at < 3 then SampleProducts()[..fault.at]
    else SampleProducts()
  }

  /** `seedProducts`: the count guard, then one `create` per sample until one fails. */
  method SeedProducts(table: ProductTable, fault: StoreFault)
    requires table.Valid()
    modifies table
    ensures table.Valid()
    ensures |table.rows| == |old(table.rows)| + |SeedPlan(|old(table.rows)|, fault)|
    ensures table.rows[..|old(table.rows)|] == old(table.rows)
    ensures forall i :: 0 <= i < |SeedPlan(|old(table.rows)|, fault)| ==>
      table.rows[|old(table.rows)| + i].data == SeedPlan(|old(table.rows)|, fault)[i]
  {
    if fault.CountFails? {
      return;
    }
    var existing := table.Count();
    if existing > 0 {
      return;
    }
    var samples := SampleProducts();
    var failAt := if fault.CreateFails? then fault.at else |samples|;
    CreateInOrder(table, samples, failAt);
  }

  /**
   * The `for ... of` loop: creates `items` one after another; the create of item
   * `failAt` throws, which ends the loop and keeps the rows already created.
   */
  method CreateInOrder(table: ProductTable, items: seq<ProductData>, failAt: nat)
    requires table.Valid()
    modifies table
    ensures table.Valid()
    ensures var n := if failAt < |items| then failAt else |items|;
      && |table.rows| == |old(table.rows)| + n
      && table.rows[..|old(table.rows)|] == old(table.rows)
      && forall k :: 0 <= k < n ==> table.rows[|old(table.rows)| + k].data == items[k]
  {
    ghost var start := table.rows;
    var i := 0;
    while i < |items| && i != failAt
      invariant 0 <= i <= |items| && i <= failAt
      invariant table.Valid()
      invariant |table.rows| == |start| + i
      invariant table.rows[..|start|] == start
      invariant forall k :: 0 <= k < i ==> table.rows[|start| + k].data == items[k]
    {
      ghost var before := table.rows;
      var p := table.Create(items[i]);
      assert table.rows[..|before|] == before;
      i := i + 1;
    }
  }

  /** A run that added rows leaves the table non-empty, so every later run adds nothing. */
  lemma SeedRunsOnce(existing: nat, first: StoreFault, later: StoreFault)
    requires SeedPlan(existing, first) != []
    ensures SeedPlan(existing + |SeedPlan(existing, first)|, later) == []
  {
  }

  /**
   * With no rollback, a run whose second or third `create` fails leaves a part
   * of the samples behind for good: later runs skip, and the remaining samples
   * are never created.
   */
  lemma PartialSeedIsFinal(k: nat, later: StoreFault)
    requires 0 < k < 3
    ensures |SeedPlan(0, CreateFails(k))| == k
    ensures SeedPlan(k, later) == []
  {
  }

  /** The sample names, prices and image counts, in creation order. */
  lemma SampleListContents()
    ensures Samples[0].name == "VR Prescription Lenses - Meta Quest 2"
    ensures Samples[1].name == "VR Prescription Lenses - Meta Quest 3"
    ensures Samples[2].name == "VR Prescription Lenses - PICO 4"
    ensures Samples[0].price == 8999 && Samples[1].price == 9999 && Samples[2].price == 7999
    ensures |Samples[0].imageUrls| == 2 && |Samples[1].imageUrls| == 2 && |Samples[2].imageUrls| == 1
  {
  }

  /** Every sample has a name, a description and a positive price. */
  lemma SamplesWellFormed(i: nat)
    requires i < |Samples|
    ensures Samples[i].name != "" && Samples[i].description != "" && Samples[i].price > 0
  {
  }

  /**
   * A sample's row is the row the `POST` route would store for the same fields,
   * so seeded rows meet what the route guarantees for the rows it creates.
   */
  lemma SampleRowPassesValidation(s: Sample)
    requires s.name != "" && s.description != "" && s.price > 0
    ensures ProductsRoute.Validate(ProductsRoute.RequestBody(
      Some(s.name), Some(s.description), ProductsRoute.Number(s.price), Some(JsonArray.Encode(s.imageUrls))))
      == Ok(SampleRow(s))
  {
    assert JsonArray.Encode(s.imageUrls) != "";
  }

  /** Seeding never stores a negative price. */
  lemma SeedKeepsPricesNonNegative(rows: seq<Product>, added: seq<Product>, existing: nat, fault: StoreFault)
    requires PricesNonNegative(rows)
    requires |added| == |SeedPlan(existing, fault)|
    requires forall i :: 0 <= i < |added| ==> added[i].data == SeedPlan(existing, fault)[i]
    ensures PricesNonNegative(rows + added)
  {
    var plan := SeedPlan(existing, fault);
    forall i | 0 <= i < |added| ensures added[i].data.basePrice > 0 {
      assert plan[i] == SampleProducts()[i];
      SamplesWellFormed(i);
    }
  }
}
