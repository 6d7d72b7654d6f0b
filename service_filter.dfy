/** The client-side filter engine of the TravelGo services page
    (`applyFilters` in `TravelGo/frontend/src/components/Services.js`): up to
    four `.filter` passes over the fetched services, one per filled-in
    criterion. The lemmas show that the chain equals one pass with the
    conjunction of the criteria, and from that: soundness, completeness, order
    preservation and idempotence. */
module ServiceFilter {
  import opened Common
  import opened Catalog
  import opened Text
  import opened Seqs

  /** The `filter` state. The type select and the two number inputs are blank
      (`''`, falsy) or hold a value; a blank location is the empty string. */
  datatype Criteria = Criteria(
    serviceType: Option<ServiceType>,
    location: string,
    minPrice: Option<real>,
    maxPrice: Option<real>)

  /** The initial state: every field blank. */
  const NoCriteria := Criteria(None, "", None, None)

  /** The location test: case-insensitive substring of the location, or of
      the destination when the service has a non-empty one. */
  predicate LocationMatches(s: Service, location: string) {
    || Contains(Lower(s.location), Lower(location))
    || (s.destination.Some? && s.destination.value != "" && Contains(Lower(s.destination.value), Lower(location)))
  }

  // One predicate per criterion; each holds of every service when its field is blank.
  predicate TypeOk(c: Criteria, s: Service) { c.serviceType.Some? ==> s.serviceType == c.serviceType.value }
  predicate LocationOk(c: Criteria, s: Service) { c.location != "" ==> LocationMatches(s, c.location) }
  predicate MinOk(c: Criteria, s: Service) { c.minPrice.Some? ==> s.price >= c.minPrice.value }
  predicate MaxOk(c: Criteria, s: Service) { c.maxPrice.Some? ==> s.price <= c.maxPrice.value }

  /** The reference meaning of the criteria: all filled-in fields hold. */
  predicate Matches(c: Criteria, s: Service) {
    TypeOk(c, s) && LocationOk(c, s) && MinOk(c, s) && MaxOk(c, s)
  }

  /** `applyFilters`: each filled-in field narrows the list with one more pass.
      Every service matching the criteria is kept as often as it occurs, and
      no other service is kept. */
  function ApplyFilters(services: seq<Service>, c: Criteria): (r: seq<Service>)
    ensures |r| <= |services|
    ensures forall s {:trigger multiset(r)[s]} :: multiset(r)[s] == if Matches(c, s) then multiset(services)[s] else 0
  {
    var byType := if c.serviceType.Some? then Filter(services, s => TypeOk(c, s)) else services;
    var byLocation := if c.location != "" then Filter(byType, s => LocationOk(c, s)) else byType;
    var byMin := if c.minPrice.Some? then Filter(byLocation, s => MinOk(c, s)) else byLocation;
    if c.maxPrice.Some? then Filter(byMin, s => MaxOk(c, s)) else byMin
  }

  /** A skipped pass is a pass that keeps everything. */
  lemma SkippedPass(xs: seq<Service>, present: bool, keep: Service -> bool)
    requires !present ==> forall s :: keep(s)
    ensures (if present then Filter(xs, keep) else xs) == Filter(xs, keep)
  {
    if !present {
      FilterKeepAll(xs, keep);
    }
  }

  // ---------------------------------------------------------------------------
  // Properties of applyFilters

  /** The chain of passes equals a single pass with `Matches`, so the result
      depends only on the criteria's meaning, not on the pass order. */
  lemma ApplyFiltersIsOnePass(services: seq<Service>, c: Criteria)
    ensures ApplyFilters(services, c) == Filter(services, s => Matches(c, s))
  {
    var t := (s: Service) => TypeOk(c, s);
    var l := (s: Service) => LocationOk(c, s);
    var lo := (s: Service) => MinOk(c, s);
    var hi := (s: Service) => MaxOk(c, s);
    SkippedPass(services, c.serviceType.Some?, t);
    var byType := Filter(services, t);
    SkippedPass(byType, c.location != "", l);
    var tl := (s: Service) => TypeOk(c, s) && LocationOk(c, s);
    FilterFuse(services, t, l, tl);
    var byLocation := Filter(services, tl);
    SkippedPass(byLocation, c.minPrice.Some?, lo);
    var tlm := (s: Service) => TypeOk(c, s) && LocationOk(c, s) && MinOk(c, s);
    FilterFuse(services, tl, lo, tlm);
    var byMin := Filter(services, tlm);
    SkippedPass(byMin, c.maxPrice.Some?, hi);
    FilterFuse(services, tlm, hi, s => Matches(c, s));
  }

  /** Soundness and completeness: a service is kept exactly when it is in
      the list and satisfies every filled-in criterion. */
  lemma ApplyFiltersKeepsExactlyMatches(services: seq<Service>, c: Criteria, s: Service)
    ensures s in ApplyFilters(services, c) <==> s in services && Matches(c, s)
  {
    ApplyFiltersIsOnePass(services, c);
  }

  /** The result is the service list with some entries dropped, order kept. */
  lemma ApplyFiltersPreservesOrder(services: seq<Service>, c: Criteria)
    ensures IsSubsequence(ApplyFilters(services, c), services)
  {
    ApplyFiltersIsOnePass(services, c);
    FilterIsSubsequence(services, s => Matches(c, s));
  }

  /** With every field blank, the whole list is shown in its order. */
  lemma BlankCriteriaKeepAll(services: seq<Service>)
    ensures ApplyFilters(services, NoCriteria) == services
  {
    ApplyFiltersIsOnePass(services, NoCriteria);
    FilterKeepAll(services, s => Matches(NoCriteria, s));
  }

  /** Filtering an already filtered list again changes nothing. */
  lemma ApplyFiltersIdempotent(services: seq<Service>, c: Criteria)
    ensures ApplyFilters(ApplyFilters(services, c), c) == ApplyFilters(services, c)
  {
    ApplyFiltersIsOnePass(services, c);
    ApplyFiltersIsOnePass(ApplyFilters(services, c), c);
    var m := (s: Service) => Matches(c, s);
    FilterFuse(services, m, m, m);
  }

  /** A minimum above the maximum leaves nothing. */
  lemma InvertedPriceRangeIsEmpty(services: seq<Service>, c: Criteria)
    requires c.minPrice.Some? && c.maxPrice.Some? && c.minPrice.value > c.maxPrice.value
    ensures ApplyFilters(services, c) == []
  {
    var r := ApplyFilters(services, c);
    if r != [] {
      ApplyFiltersKeepsExactlyMatches(services, c, r[0]);
      assert false;
    }
  }

  /** The location test is case-insensitive and also looks at the destination:
      "goa" keeps a service going to "GOA" and drops one based in "Mumbai". */
  lemma LocationMatchesDestinationIgnoringCase()
    ensures
      var mumbai := Service(1, Hotel, "Sea View", "Mumbai", None, "", 2499.0, 10, []);
      var goa := Service(2, Bus, "Night Coach", "Pune", Some("GOA"), "", 899.0, 30, []);
      ApplyFilters([mumbai, goa], Criteria(None, "goa", None, None)) == [goa]
  {
    var mumbai := Service(1, Hotel, "Sea View", "Mumbai", None, "", 2499.0, 10, []);
    var goa := Service(2, Bus, "Night Coach", "Pune", Some("GOA"), "", 899.0, 30, []);
    var c := Criteria(None, "goa", None, None);
    GoaMatchesGOA();
    NoGoaIn("Mumbai");
    assert !LocationOk(c, mumbai);
    assert LocationOk(c, goa);
    var l := (s: Service) => LocationOk(c, s);
    assert Filter([mumbai, goa], l) == [] + Filter([goa], l) by {
      assert [mumbai, goa][1..] == [goa];
    }
    assert Filter([goa], l) == [goa] + Filter([], l) by {
      assert [goa][1..] == [];
    }
  }

  lemma GoaMatchesGOA()
    ensures Contains(Lower("GOA"), Lower("goa"))
  {
    assert Lower("goa") == "goa";
    assert Lower("GOA") == "goa";
    assert OccursAt(Lower("GOA"), Lower("goa"), 0);
  }

  /** A word without the letter g (in either case) does not contain "goa". */
  lemma NoGoaIn(w: string)
    requires forall i :: 0 <= i < |w| ==> w[i] != 'g' && w[i] != 'G'
    ensures !Contains(Lower(w), Lower("goa"))
  {
    assert Lower("goa") == "goa";
    forall i | 0 <= i <= |w| - 3 ensures !OccursAt(Lower(w), "goa", i) {
      assert Lower(w)[i] == LowerChar(w[i]) != 'g';
    }
  }
}
