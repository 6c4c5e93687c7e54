/** The newest candidate of every suite (scripts/provenance/pin-debian-packages.ts, `resolvePins`). */
module DebianPins {
  import opened Wrappers
  import opened DebianVersions

  datatype Block = Block(
    name: Option<string>,
    version: Option<string>,
    sha256: Option<string>,
    filename: Option<string>,
    size: Option<nat>)

  /** A suite with the blocks of its verified Packages index. */
  datatype Suite = Suite(name: string, base: string, blocks: seq<Block>)

  datatype Pin = Pin(package: string, version: string, suite: string, sha256: string, size: nat, url: string)

  function Candidate(s: Suite, b: Block, want: set<string>): Option<Pin> {
    if b.name.None? || b.name.value !in want then None
    else if b.version.None? || b.sha256.None? || b.filename.None? || b.size.None? then None
    else Some(Pin(b.name.value, b.version.value, s.name, b.sha256.value, b.size.value,
                  s.base + "/" + b.filename.value))
  }

  function BlockCandidates(s: Suite, blocks: seq<Block>, want: set<string>): seq<Pin> {
    if blocks == [] then []
    else
      var last := Candidate(s, blocks[|blocks| - 1], want);
      BlockCandidates(s, blocks[..|blocks| - 1], want) + if last.Some? then [last.value] else []
  }

  function Candidates(suites: seq<Suite>, want: set<string>): seq<Pin> {
    if suites == [] then []
    else
      var last := suites[|suites| - 1];
      Candidates(suites[..|suites| - 1], want) + BlockCandidates(last, last.blocks, want)
  }

  predicate AllWellFormed(pins: seq<Pin>) {
    forall p :: p in pins ==> WellFormed(p.version)
  }

  /** The pin is a candidate for the package, as new as any, and newer than any earlier one. */
  predicate IsNewest(pins: seq<Pin>, package: string, pin: Pin)
    requires AllWellFormed(pins)
  {
    exists k :: 0 <= k < |pins| && pins[k] == pin && Leads(pins, k, package)
  }

  predicate Leads(pins: seq<Pin>, k: nat, package: string)
    requires AllWellFormed(pins) && k < |pins|
  {
    && pins[k].package == package
    && forall m :: 0 <= m < |pins| && pins[m].package == package ==>
         && Compared(pins[m].version, pins[k].version) <= 0
         && (m < k ==> Compared(pins[m].version, pins[k].version) < 0)
  }

  predicate BestOf(best: map<string, Pin>, pins: seq<Pin>)
    requires AllWellFormed(pins)
  {
    && (forall n :: n in best ==> IsNewest(pins, n, best[n]))
    && (forall p :: p in pins ==> p.package in best)
  }

  /** Keeping the newer of the current best and one more candidate. */
  lemma OneMoreCandidate(best: map<string, Pin>, pins: seq<Pin>, c: Pin)
    requires AllWellFormed(pins) && WellFormed(c.version) && BestOf(best, pins)
    ensures AllWellFormed(pins + [c])
    ensures var keep := c.package in best && Compared(c.version, best[c.package].version) <= 0;
            BestOf(if keep then best else best[c.package := c], pins + [c])
  {
    var more := pins + [c];
    var keep := c.package in best && Compared(c.version, best[c.package].version) <= 0;
    var best' := if keep then best else best[c.package := c];
    MoreWellFormed(pins, c);
    forall n | n in best'
      ensures IsNewest(more, n, best'[n])
    {
      if n == c.package && !keep {
        NewLeader(best, pins, c);
        assert more[|pins|] == c;
      } else {
        StillNewest(pins, c, n, best[n]);
      }
    }
  }

  lemma MoreWellFormed(pins: seq<Pin>, c: Pin)
    requires AllWellFormed(pins) && WellFormed(c.version)
    ensures AllWellFormed(pins + [c])
  {
  }

  lemma StillNewest(pins: seq<Pin>, c: Pin, n: string, pin: Pin)
    requires AllWellFormed(pins) && WellFormed(c.version) && IsNewest(pins, n, pin)
    requires c.package == n ==> Compared(c.version, pin.version) <= 0
    ensures AllWellFormed(pins + [c]) && IsNewest(pins + [c], n, pin)
  {
    MoreWellFormed(pins, c);
    var k :| 0 <= k < |pins| && pins[k] == pin && Leads(pins, k, n);
    assert (pins + [c])[k] == pin && Leads(pins + [c], k, n);
  }

  lemma NewLeader(best: map<string, Pin>, pins: seq<Pin>, c: Pin)
    requires AllWellFormed(pins) && WellFormed(c.version) && BestOf(best, pins)
    requires c.package in best ==> Compared(c.version, best[c.package].version) > 0
    ensures AllWellFormed(pins + [c]) && Leads(pins + [c], |pins|, c.package)
  {
    var more := pins + [c];
    assert more[|pins|] == c;
    MoreWellFormed(pins, c);
    ComparisonIsSymmetric(c.version, c.version);
    forall m | 0 <= m < |pins| && pins[m].package == c.package
      ensures Compared(pins[m].version, c.version) < 0
    {
      assert pins[m] in pins && c.package in best;
      NewerThanBest(pins, m, c, best[c.package]);
    }
  }

  lemma NewerThanBest(pins: seq<Pin>, m: nat, c: Pin, b: Pin)
    requires AllWellFormed(pins) && WellFormed(c.version) && m < |pins| && pins[m].package == c.package
    requires IsNewest(pins, c.package, b) && WellFormed(b.version) && Compared(c.version, b.version) > 0
    ensures WellFormed(pins[m].version) && Compared(pins[m].version, c.version) < 0
  {
    assert pins[m] in pins;
    var k :| 0 <= k < |pins| && pins[k] == b && Leads(pins, k, c.package);
    ComparisonIsSymmetric(b.version, c.version);
    ComparisonIsTransitive(pins[m].version, b.version, c.version);
  }

  function Unresolved(packages: seq<string>, best: map<string, Pin>): seq<string> {
    if packages == [] then []
    else
      var last := packages[|packages| - 1];
      Unresolved(packages[..|packages| - 1], best) + if last in best then [] else [last]
  }

  lemma {:induction false} UnresolvedMembers(packages: seq<string>, best: map<string, Pin>)
    ensures forall p :: p in Unresolved(packages, best) <==> p in packages && p !in best
  {
    if packages != [] {
      UnresolvedMembers(packages[..|packages| - 1], best);
      assert packages == packages[..|packages| - 1] + [packages[|packages| - 1]];
    }
  }

  /** The newer of a candidate and the current best of its package; the current best wins ties. */
  method KeepNewer(best0: map<string, Pin>, c: Pin, ghost pins: seq<Pin>) returns (best: map<string, Pin>)
    requires AllWellFormed(pins) && WellFormed(c.version) && BestOf(best0, pins)
    ensures AllWellFormed(pins + [c]) && BestOf(best, pins + [c])
  {
    best := best0;
    OneMoreCandidate(best, pins, c);
    var newer := c.package !in best;
    if !newer {
      var order := CompareDebianVersions(c.version, best[c.package].version);
      newer := order > 0;
    }
    if newer {
      best := best[c.package := c];
    }
  }

  /** The candidates met before the b-th block of a suite. */
  function Met(before: seq<Pin>, suite: Suite, b: nat, want: set<string>): (r: seq<Pin>)
    requires b <= |suite.blocks|
  {
    before + BlockCandidates(suite, suite.blocks[..b], want)
  }

  lemma NextBlock(before: seq<Pin>, suite: Suite, b: nat, want: set<string>)
    requires b < |suite.blocks| && AllWellFormed(before + BlockCandidates(suite, suite.blocks, want))
    ensures AllWellFormed(Met(before, suite, b + 1, want))
    ensures var c := Candidate(suite, suite.blocks[b], want);
      if c.Some? then
        Met(before, suite, b + 1, want) == Met(before, suite, b, want) + [c.value] && WellFormed(c.value.version)
      else Met(before, suite, b + 1, want) == Met(before, suite, b, want)
  {
    var c := Candidate(suite, suite.blocks[b], want);
    BlockPrefix(suite, b, want);
    if c.Some? {
      assert Met(before, suite, b + 1, want) == Met(before, suite, b, want) + [c.value];
      assert c.value in Met(before, suite, b + 1, want);
    }
  }

  /** One suite's turn in `resolvePins`. */
  method ScanSuite(suite: Suite, want: set<string>, best0: map<string, Pin>, ghost before: seq<Pin>)
    returns (best: map<string, Pin>)
    requires AllWellFormed(before + BlockCandidates(suite, suite.blocks, want))
    requires AllWellFormed(before) && BestOf(best0, before)
    ensures BestOf(best, before + BlockCandidates(suite, suite.blocks, want))
  {
    best := best0;
    var b := 0;
    assert Met(before, suite, 0, want) == before;
    while b < |suite.blocks|
      invariant 0 <= b <= |suite.blocks|
      invariant AllWellFormed(Met(before, suite, b, want)) && BestOf(best, Met(before, suite, b, want))
    {
      var candidate := Candidate(suite, suite.blocks[b], want);
      NextBlock(before, suite, b, want);
      if candidate.Some? {
        best := KeepNewer(best, candidate.value, Met(before, suite, b, want));
      }
      b := b + 1;
    }
    assert suite.blocks[..|suite.blocks|] == suite.blocks;
  }

  /** `resolvePins`: the newest candidate of each package over all suites, or the packages nobody has. */
  method ResolvePins(suites: seq<Suite>, packages: seq<string>) returns (r: Result<seq<Pin>, seq<string>>)
    requires AllWellFormed(Candidates(suites, set p | p in packages))
    ensures r.Ok? ==> |r.value| == |packages|
    ensures r.Ok? ==> forall i :: 0 <= i < |packages| ==>
              r.value[i].package == packages[i] && Chosen(suites, r.value[i])
    ensures r.Err? ==> r.error != []
    ensures r.Err? ==> forall p :: p in r.error <==>
              p in packages && forall at, pin :: Offers(suites, at, pin) ==> pin.package != p
  {
    var want := set p | p in packages;
    var best: map<string, Pin> := map[];
    var s := 0;
    while s < |suites|
      invariant 0 <= s <= |suites|
      invariant AllWellFormed(Candidates(suites[..s], want))
      invariant BestOf(best, Candidates(suites[..s], want))
    {
      SuitePrefix(suites, s, want);
      best := ScanSuite(suites[s], want, best, Candidates(suites[..s], want));
      s := s + 1;
    }
    assert suites[..|suites|] == suites;
    r := ReadPins(best, Candidates(suites, want), packages);
    AnswerIsTheChoice(suites, packages, r);
  }

  /** The pins of the packages, or those that have none. */
  method ReadPins(best: map<string, Pin>, ghost pins: seq<Pin>, packages: seq<string>)
    returns (r: Result<seq<Pin>, seq<string>>)
    requires AllWellFormed(pins) && BestOf(best, pins)
    ensures r.Ok? ==>
      |r.value| == |packages| && forall i :: 0 <= i < |packages| ==> IsNewest(pins, packages[i], r.value[i])
    ensures r.Err? ==> r.error != []
    ensures r.Err? ==> forall p :: p in r.error <==> p in packages && forall c :: c in pins ==> c.package != p
  {
    var missing := Unresolved(packages, best);
    UnresolvedMembers(packages, best);
    if missing != [] {
      BestNamesExactly(best, pins);
      return Err(missing);
    }
    return Ok(seq(|packages|, i requires 0 <= i < |packages| && packages[i] in best => best[packages[i]]));
  }

  lemma BestNamesExactly(best: map<string, Pin>, pins: seq<Pin>)
    requires AllWellFormed(pins) && BestOf(best, pins)
    ensures forall n :: n in best <==> exists c :: c in pins && c.package == n
  {
    forall n | n in best
      ensures exists c :: c in pins && c.package == n
    {
      var k :| 0 <= k < |pins| && pins[k] == best[n] && Leads(pins, k, n);
      assert pins[k] in pins;
    }
  }

  /** Every version met while going through a suite is one of the candidates. */
  lemma SuitePrefix(suites: seq<Suite>, s: nat, want: set<string>)
    requires s < |suites| && AllWellFormed(Candidates(suites, want))
    ensures AllWellFormed(Candidates(suites[..s], want) + BlockCandidates(suites[s], suites[s].blocks, want))
    ensures Candidates(suites[..s + 1], want)
         == Candidates(suites[..s], want) + BlockCandidates(suites[s], suites[s].blocks, want)
  {
    assert suites[..s + 1][..s] == suites[..s];
    MoreSuites(suites, s + 1, want);
  }

  lemma {:induction false} MoreSuites(suites: seq<Suite>, s: nat, want: set<string>)
    requires s <= |suites|
    ensures Candidates(suites[..s], want) <= Candidates(suites, want)
    decreases |suites|
  {
    if s == |suites| {
      assert suites[..s] == suites;
    } else {
      var shorter := suites[..|suites| - 1];
      MoreSuites(shorter, s, want);
      assert shorter[..s] == suites[..s];
    }
  }

  lemma BlockPrefix(suite: Suite, b: nat, want: set<string>)
    requires b < |suite.blocks|
    ensures var c := Candidate(suite, suite.blocks[b], want);
            BlockCandidates(suite, suite.blocks[..b + 1], want)
            == BlockCandidates(suite, suite.blocks[..b], want) + if c.Some? then [c.value] else []
    ensures BlockCandidates(suite, suite.blocks[..b + 1], want) <= BlockCandidates(suite, suite.blocks, want)
  {
    assert suite.blocks[..b + 1][..b] == suite.blocks[..b];
    MoreBlocks(suite, suite.blocks, b + 1, want);
  }

  lemma {:induction false} MoreBlocks(suite: Suite, blocks: seq<Block>, b: nat, want: set<string>)
    requires b <= |blocks|
    ensures BlockCandidates(suite, blocks[..b], want) <= BlockCandidates(suite, blocks, want)
    decreases |blocks|
  {
    if b == |blocks| {
      assert blocks[..b] == blocks;
    } else {
      var shorter := blocks[..|blocks| - 1];
      MoreBlocks(suite, shorter, b, want);
      assert shorter[..b] == blocks[..b];
    }
  }

  // ----- The pins in terms of the suites alone

  /** Where a block stands: suites in order, and their blocks in order. */
  datatype Place = Place(suite: nat, block: nat)

  predicate Earlier(a: Place, b: Place) {
    a.suite < b.suite || (a.suite == b.suite && a.block < b.block)
  }

  /** The block at the place names the package and has every field; the pin carries them. */
  predicate Offers(suites: seq<Suite>, at: Place, pin: Pin) {
    && at.suite < |suites| && at.block < |suites[at.suite].blocks|
    && var s, b := suites[at.suite], suites[at.suite].blocks[at.block];
       && b.name == Some(pin.package) && b.version == Some(pin.version)
       && b.sha256 == Some(pin.sha256) && b.size == Some(pin.size)
       && pin.suite == s.name
       && b.filename.Some? && pin.url == s.base + "/" + b.filename.value
  }

  function BlockPlaces(s: Suite, suite: nat, blocks: nat, want: set<string>): seq<Place>
    requires blocks <= |s.blocks|
  {
    if blocks == 0 then []
    else
      BlockPlaces(s, suite, blocks - 1, want)
      + if Candidate(s, s.blocks[blocks - 1], want).Some? then [Place(suite, blocks - 1)] else []
  }

  function PlacesOf(suites: seq<Suite>, n: nat, want: set<string>): seq<Place>
    requires n <= |suites|
  {
    if n == 0 then []
    else
      var last := suites[n - 1];
      PlacesOf(suites, n - 1, want) + BlockPlaces(last, n - 1, |last.blocks|, want)
  }

  predicate Ascending(places: seq<Place>) {
    forall i, j :: 0 <= i < j < |places| ==> Earlier(places[i], places[j])
  }

  /** The candidates are what the places offer, one each, and no place up to here is left out. */
  predicate Lists(suites: seq<Suite>, places: seq<Place>, pins: seq<Pin>, want: set<string>) {
    && |places| == |pins|
    && forall i :: 0 <= i < |pins| ==> Offers(suites, places[i], pins[i]) && pins[i].package in want
  }

  lemma CandidateIsOffered(suites: seq<Suite>, at: Place, pin: Pin, want: set<string>)
    requires at.suite < |suites| && at.block < |suites[at.suite].blocks|
    ensures Candidate(suites[at.suite], suites[at.suite].blocks[at.block], want) == Some(pin)
       <==> Offers(suites, at, pin) && pin.package in want
  {
  }

  /** Everything offered by blocks the scan went through stands at a listed place. */
  ghost predicate Complete(suites: seq<Suite>, places: seq<Place>, n: nat, want: set<string>) {
    forall at: Place, pin :: at.suite < n && Offers(suites, at, pin) && pin.package in want ==> at in places
  }

  lemma ListsAppend(suites: seq<Suite>, places: seq<Place>, pins: seq<Pin>,
                    more: seq<Place>, morePins: seq<Pin>, want: set<string>)
    requires Lists(suites, places, pins, want) && Lists(suites, more, morePins, want)
    ensures Lists(suites, places + more, pins + morePins, want)
  {
  }

  lemma AscendingAppend(places: seq<Place>, more: seq<Place>)
    requires Ascending(places) && Ascending(more)
    requires forall p, q :: p in places && q in more ==> Earlier(p, q)
    ensures Ascending(places + more)
  {
  }

  lemma {:induction false} BlocksList(suites: seq<Suite>, suite: nat, n: nat, want: set<string>)
    requires suite < |suites| && n <= |suites[suite].blocks|
    ensures var s := suites[suite];
            var places := BlockPlaces(s, suite, n, want);
            && Lists(suites, places, BlockCandidates(s, s.blocks[..n], want), want) && Ascending(places)
            && (forall p :: p in places ==> p.suite == suite && p.block < n)
            && forall b :: 0 <= b < n && Candidate(s, s.blocks[b], want).Some? ==> Place(suite, b) in places
  {
    if n > 0 {
      var s := suites[suite];
      BlocksList(suites, suite, n - 1, want);
      assert s.blocks[..n][..n - 1] == s.blocks[..n - 1];
      var last := Candidate(s, s.blocks[n - 1], want);
      if last.Some? {
        CandidateIsOffered(suites, Place(suite, n - 1), last.value, want);
        ListsAppend(suites, BlockPlaces(s, suite, n - 1, want), BlockCandidates(s, s.blocks[..n - 1], want),
                    [Place(suite, n - 1)], [last.value], want);
        AscendingAppend(BlockPlaces(s, suite, n - 1, want), [Place(suite, n - 1)]);
      }
    }
  }

  lemma SuiteIsComplete(suites: seq<Suite>, suite: nat, want: set<string>, at: Place, pin: Pin)
    requires suite < |suites| && at.suite == suite && Offers(suites, at, pin) && pin.package in want
    ensures at in BlockPlaces(suites[suite], suite, |suites[suite].blocks|, want)
  {
    BlocksList(suites, suite, |suites[suite].blocks|, want);
    CandidateIsOffered(suites, at, pin, want);
  }

  lemma {:induction false} SuitesAreComplete(suites: seq<Suite>, n: nat, want: set<string>)
    requires n <= |suites|
    ensures Complete(suites, PlacesOf(suites, n, want), n, want)
  {
    if n > 0 {
      SuitesAreComplete(suites, n - 1, want);
      forall at: Place, pin | at.suite < n && Offers(suites, at, pin) && pin.package in want
        ensures at in PlacesOf(suites, n, want)
      {
        if at.suite == n - 1 {
          SuiteIsComplete(suites, n - 1, want, at, pin);
        }
      }
    }
  }

  lemma {:induction false} SuitesList(suites: seq<Suite>, n: nat, want: set<string>)
    requires n <= |suites|
    ensures var places := PlacesOf(suites, n, want);
            && Lists(suites, places, Candidates(suites[..n], want), want) && Ascending(places)
            && forall p :: p in places ==> p.suite < n
  {
    if n > 0 {
      var last := suites[n - 1];
      SuitesList(suites, n - 1, want);
      BlocksList(suites, n - 1, |last.blocks|, want);
      assert last.blocks[..|last.blocks|] == last.blocks;
      assert suites[..n][..n - 1] == suites[..n - 1];
      var before, more := PlacesOf(suites, n - 1, want), BlockPlaces(last, n - 1, |last.blocks|, want);
      ListsAppend(suites, before, Candidates(suites[..n - 1], want),
                  more, BlockCandidates(last, last.blocks, want), want);
      AscendingAppend(before, more);
    }
  }

  /** The pin is what some place offers, no place offers a newer version, and no earlier place one as new. */
  ghost predicate Chosen(suites: seq<Suite>, pin: Pin) {
    exists at :: Offers(suites, at, pin) && Beats(suites, at, pin)
  }

  ghost predicate Beats(suites: seq<Suite>, at: Place, pin: Pin) {
    forall other, rival :: Offers(suites, other, rival) && rival.package == pin.package ==>
      && WellFormed(rival.version) && WellFormed(pin.version)
      && Compared(rival.version, pin.version) <= 0
      && (Earlier(other, at) ==> Compared(rival.version, pin.version) < 0)
  }

  /** A candidate that leads its package against one rival the suites offer. */
  lemma LeaderBeats(suites: seq<Suite>, want: set<string>, k: nat, other: Place, rival: Pin)
    requires AllWellFormed(Candidates(suites, want)) && k < |Candidates(suites, want)|
    requires |PlacesOf(suites, |suites|, want)| == |Candidates(suites, want)|
    requires Leads(Candidates(suites, want), k, rival.package)
    requires Offers(suites, other, rival) && rival.package in want
    ensures var pins, places := Candidates(suites, want), PlacesOf(suites, |suites|, want);
      && WellFormed(rival.version) && WellFormed(pins[k].version)
      && Compared(rival.version, pins[k].version) <= 0
      && (Earlier(other, places[k]) ==> Compared(rival.version, pins[k].version) < 0)
  {
    var pins, places := Candidates(suites, want), PlacesOf(suites, |suites|, want);
    var m := PlaceOfOffer(suites, want, other, rival);
    assert pins[m] in pins && pins[k] in pins;
    SuitesAscend(suites, want, k, m);
  }

  lemma SuitesAscend(suites: seq<Suite>, want: set<string>, k: nat, m: nat)
    requires k < |PlacesOf(suites, |suites|, want)| && m < |PlacesOf(suites, |suites|, want)|
    ensures var places := PlacesOf(suites, |suites|, want); Earlier(places[m], places[k]) ==> m < k
  {
    SuitesList(suites, |suites|, want);
  }

  /** What is offered for a wanted package is listed. */
  lemma PlaceOfOffer(suites: seq<Suite>, want: set<string>, at: Place, pin: Pin) returns (m: nat)
    requires Offers(suites, at, pin) && pin.package in want
    ensures m < |Candidates(suites, want)| == |PlacesOf(suites, |suites|, want)|
    ensures PlacesOf(suites, |suites|, want)[m] == at && Candidates(suites, want)[m] == pin
  {
    var places := PlacesOf(suites, |suites|, want);
    assert suites[..|suites|] == suites;
    SuitesList(suites, |suites|, want);
    SuitesAreComplete(suites, |suites|, want);
    assert at in places;
    m :| 0 <= m < |places| && places[m] == at;
    assert Offers(suites, at, Candidates(suites, want)[m]);
  }

  lemma LeaderIsOffered(suites: seq<Suite>, want: set<string>, k: nat)
    requires k < |Candidates(suites, want)|
    ensures |PlacesOf(suites, |suites|, want)| == |Candidates(suites, want)|
    ensures Offers(suites, PlacesOf(suites, |suites|, want)[k], Candidates(suites, want)[k])
    ensures Candidates(suites, want)[k].package in want
  {
    assert suites[..|suites|] == suites;
    SuitesList(suites, |suites|, want);
  }

  lemma LeaderBeatsAll(suites: seq<Suite>, want: set<string>, k: nat, package: string)
    requires AllWellFormed(Candidates(suites, want)) && k < |Candidates(suites, want)|
    requires |PlacesOf(suites, |suites|, want)| == |Candidates(suites, want)|
    requires Leads(Candidates(suites, want), k, package) && package in want
    ensures Beats(suites, PlacesOf(suites, |suites|, want)[k], Candidates(suites, want)[k])
  {
    forall other, rival | Offers(suites, other, rival) && rival.package == package
      ensures var pins, places := Candidates(suites, want), PlacesOf(suites, |suites|, want);
              && WellFormed(rival.version) && WellFormed(pins[k].version)
              && Compared(rival.version, pins[k].version) <= 0
              && (Earlier(other, places[k]) ==> Compared(rival.version, pins[k].version) < 0)
    {
      LeaderBeats(suites, want, k, other, rival);
    }
  }

  /** The newest candidate of a package is the choice among everything the suites offer. */
  lemma NewestIsChosen(suites: seq<Suite>, want: set<string>, package: string, pin: Pin)
    requires AllWellFormed(Candidates(suites, want)) && IsNewest(Candidates(suites, want), package, pin)
    ensures pin.package == package && Chosen(suites, pin)
  {
    var pins := Candidates(suites, want);
    var k :| 0 <= k < |pins| && pins[k] == pin && Leads(pins, k, package);
    LeaderIsOffered(suites, want, k);
    LeaderBeatsAll(suites, want, k, package);
  }

  /** Nobody offers a wanted package exactly when no candidate is for it. */
  lemma UnofferedIsMissing(suites: seq<Suite>, want: set<string>, package: string)
    requires package in want
    ensures (forall c :: c in Candidates(suites, want) ==> c.package != package)
       <==> (forall at, pin :: Offers(suites, at, pin) ==> pin.package != package)
  {
    var pins, places := Candidates(suites, want), PlacesOf(suites, |suites|, want);
    assert suites[..|suites|] == suites;
    SuitesList(suites, |suites|, want);
    forall c | c in pins && c.package == package
      ensures exists at :: Offers(suites, at, c)
    {
      var k :| 0 <= k < |pins| && pins[k] == c;
      assert Offers(suites, places[k], c);
    }
    forall at, pin | Offers(suites, at, pin) && pin.package == package
      ensures pin in pins
    {
      var m := PlaceOfOffer(suites, want, at, pin);
      assert pins[m] == pin;
    }
  }

  lemma AnswerIsTheChoice(suites: seq<Suite>, packages: seq<string>, r: Result<seq<Pin>, seq<string>>)
    requires AllWellFormed(Candidates(suites, set p | p in packages))
    requires var pins := Candidates(suites, set p | p in packages);
      r.Ok? ==> |r.value| == |packages| && forall i :: 0 <= i < |packages| ==> IsNewest(pins, packages[i], r.value[i])
    requires var pins := Candidates(suites, set p | p in packages);
      r.Err? ==> forall p :: p in r.error <==> p in packages && forall c :: c in pins ==> c.package != p
    ensures r.Ok? ==> forall i :: 0 <= i < |packages| ==>
              r.value[i].package == packages[i] && Chosen(suites, r.value[i])
    ensures r.Err? ==> forall p :: p in r.error <==>
              p in packages && forall at, pin :: Offers(suites, at, pin) ==> pin.package != p
  {
    var want := set p | p in packages;
    if r.Ok? {
      forall i | 0 <= i < |packages|
        ensures r.value[i].package == packages[i] && Chosen(suites, r.value[i])
      {
        NewestIsChosen(suites, want, packages[i], r.value[i]);
      }
    } else {
      forall p | p in packages
        ensures p in r.error <==> forall at, pin :: Offers(suites, at, pin) ==> pin.package != p
      {
        UnofferedIsMissing(suites, want, p);
      }
    }
  }
}
