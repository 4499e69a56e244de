/** migrate-station-printing: the print agent's token moves from the outlet to its station. */
module StationMigration {
  import opened Options
  import Places
  import Text

  datatype Outlet = Outlet(
    id: nat, name: string, stationCode: string, stationName: Option<string>, token: Option<string>, active: bool)

  datatype Station = Station(name: Option<string>, token: Option<string>)

  datatype Job = Job(outlet: nat, stationCode: Option<string>)

  datatype Warning = SeveralTokens(code: string, count: nat) | NamesDisagree(code: string, kept: Option<string>)

  datatype Report = Report(
    stationsCreated: seq<string>, tokensAdopted: seq<string>, jobsBackfilled: nat, orphanJobs: nat, warnings: seq<Warning>)

  // --- commonest -------------------------------------------------------------------------------

  function Count(values: seq<string>, v: string): nat {
    if values == [] then 0
    else Count(values[..|values| - 1], v) + (if values[|values| - 1] == v then 1 else 0)
  }

  /** The distinct values in the order in which they first occur. */
  function Distinct(values: seq<string>): (d: seq<string>)
    ensures forall v :: v in d <==> v in values
  {
    if values == [] then []
    else
      var d := Distinct(values[..|values| - 1]);
      var last := values[|values| - 1];
      assert values == values[..|values| - 1] + [last];
      if last in d then d else d + [last]
  }

  /** `v` occurs most often; of those that occur as often, it occurs first. */
  ghost predicate IsCommonest(values: seq<string>, v: string) {
    && v in values
    && (forall u :: u in values ==> Count(values, u) <= Count(values, v))
    && (forall u :: u in values && u != v && Count(values, u) == Count(values, v) ==> FirstAt(values, v) < FirstAt(values, u))
  }

  function FirstAt(values: seq<string>, v: string): nat {
    if values == [] || values[0] == v then 0 else 1 + FirstAt(values[1..], v)
  }

  lemma {:induction false} FirstAtInit(values: seq<string>, last: string, v: string)
    ensures v in values ==> FirstAt(values + [last], v) == FirstAt(values, v) < |values|
    ensures v !in values && v == last ==> FirstAt(values + [last], v) == |values|
    decreases |values|
  {
    if values != [] {
      assert (values + [last])[1..] == values[1..] + [last];
      FirstAtInit(values[1..], last, v);
    }
  }

  /** The distinct values stand in the order of their first occurrences. */
  lemma {:induction false} DistinctByFirst(values: seq<string>, i: nat, j: nat)
    requires i < j < |Distinct(values)|
    ensures Distinct(values)[i] != Distinct(values)[j]
    ensures FirstAt(values, Distinct(values)[i]) < FirstAt(values, Distinct(values)[j])
    decreases |values|
  {
    var init, last := values[..|values| - 1], values[|values| - 1];
    assert values == init + [last];
    FirstAtInit(init, last, Distinct(values)[i]);
    FirstAtInit(init, last, Distinct(values)[j]);
    if j < |Distinct(init)| { DistinctByFirst(init, i, j); }
  }

  lemma {:induction false} CountPositive(values: seq<string>, v: string)
    ensures Count(values, v) > 0 <==> v in values
    decreases |values|
  {
    if values != [] {
      CountPositive(values[..|values| - 1], v);
      assert values == values[..|values| - 1] + [values[|values| - 1]];
    }
  }

  /** The loop's best so far, over the keys in insertion order. */
  function Best(values: seq<string>, keys: seq<string>): Option<string> {
    if keys == [] then None
    else
      var best, last := Best(values, keys[..|keys| - 1]), keys[|keys| - 1];
      if Count(values, last) > (if best.Some? then Count(values, best.value) else 0) then Some(last) else best
  }

  function CommonestOf(values: seq<string>): Option<string> { Best(values, Distinct(values)) }

  lemma OneMoreValue(values: seq<string>, v: string)
    ensures Distinct(values + [v]) == if v in Distinct(values) then Distinct(values) else Distinct(values) + [v]
    ensures forall k :: Count(values + [v], k) == Count(values, k) + (if k == v then 1 else 0)
    ensures v !in Distinct(values) ==> Count(values, v) == 0
  {
    assert (values + [v])[..|values|] == values;
    CountPositive(values, v);
  }

  lemma OneMoreKey(values: seq<string>, keys: seq<string>, k: string)
    ensures var best := Best(values, keys);
            Best(values, keys + [k]) ==
            if Count(values, k) > (if best.Some? then Count(values, best.value) else 0) then Some(k) else best
  {
    assert (keys + [k])[..|keys|] == keys;
  }

  method Commonest(values: seq<string>) returns (best: Option<string>)
    ensures best == CommonestOf(values)
  {
    hide Distinct, Count, Best;
    var keys: seq<string>, counts: map<string, nat> := [], map[];
    assert Distinct([]) == [] && Best(values, []) == None by { Nothing(values); }
    for i := 0 to |values|
      invariant keys == Distinct(values[..i])
      invariant forall k :: k in counts <==> k in keys
      invariant forall k :: k in counts ==> counts[k] == Count(values[..i], k)
    {
      var v := values[i];
      assert values[..i + 1] == values[..i] + [v];
      OneMoreValue(values[..i], v);
      if v !in counts { keys := keys + [v]; }
      counts := counts[v := (if v in counts then counts[v] else 0) + 1];
    }
    assert values[..|values|] == values;

    best := None;
    var bestCount := 0;
    for n := 0 to |keys|
      invariant best == Best(values, keys[..n])
      invariant bestCount == (if best.Some? then Count(values, best.value) else 0)
    {
      var k := keys[n];
      assert keys[..n + 1] == keys[..n] + [k];
      OneMoreKey(values, keys[..n], k);
      if counts[k] > bestCount {
        best, bestCount := Some(k), counts[k];
      }
    }
    assert keys[..|keys|] == keys;
  }

  lemma Nothing(values: seq<string>)
    ensures Distinct([]) == [] && Best(values, []) == None
  {}

  /** `best` is the most frequent of `keys`, ahead of those as frequent; None when there is none. */
  ghost predicate BestOf(values: seq<string>, keys: seq<string>, best: Option<string>) {
    match best
    case None => keys == []
    case Some(b) =>
      && b in keys
      && (forall k :: k in keys ==> Count(values, k) <= Count(values, b))
      && (forall k :: k in keys && k != b && Count(values, k) == Count(values, b) ==> FirstAt(values, b) < FirstAt(values, k))
  }

  lemma BestOfOneMore(values: seq<string>, keys: seq<string>, last: string, best: Option<string>)
    requires BestOf(values, keys, best) && Count(values, last) > 0
    requires forall k :: k in keys ==> k != last && FirstAt(values, k) < FirstAt(values, last)
    ensures BestOf(values, keys + [last],
                   if Count(values, last) > (if best.Some? then Count(values, best.value) else 0) then Some(last) else best)
  {
    hide Count, FirstAt;
    assert forall k :: k in keys + [last] <==> k in keys || k == last;
  }

  lemma {:induction false} BestOfPrefix(values: seq<string>, n: nat)
    requires n <= |Distinct(values)|
    ensures BestOf(values, Distinct(values)[..n], Best(values, Distinct(values)[..n]))
    decreases n
  {
    hide Distinct, Count, FirstAt, BestOf;
    var keys := Distinct(values)[..n];
    if n == 0 {
      NoneBest(values);
    } else {
      var rest, last := keys[..n - 1], keys[n - 1];
      assert rest == Distinct(values)[..n - 1] && keys == rest + [last];
      BestOfPrefix(values, n - 1);
      CountPositive(values, last);
      forall k | k in rest
        ensures k != last && FirstAt(values, k) < FirstAt(values, last)
      {
        var i :| 0 <= i < n - 1 && rest[i] == k;
        DistinctByFirst(values, i, n - 1);
      }
      BestOfOneMore(values, rest, last, Best(values, rest));
    }
  }

  lemma NoneBest(values: seq<string>)
    ensures BestOf(values, [], Best(values, []))
  {}

  /** commonest returns the most frequent value, and of several the one that occurs first. */
  lemma CommonestIsFirstMostFrequent(values: seq<string>, v: string)
    ensures CommonestOf(values) == Some(v) <==> IsCommonest(values, v)
  {
    var d := Distinct(values);
    BestOfPrefix(values, |d|);
    assert d[..|d|] == d;
    if CommonestOf(values).Some? {
      assert IsCommonest(values, CommonestOf(values).value);
    }
  }

  // --- the migration ---------------------------------------------------------------------------

  predicate At(o: Outlet, code: string) { Text.NormaliseStationCode(o.stationCode) == code }

  function AtStation(outlets: seq<Outlet>, code: string): (at: seq<Outlet>)
    ensures forall o :: o in at <==> o in outlets && At(o, code)
  {
    if outlets == [] then []
    else
      var last := outlets[|outlets| - 1];
      assert outlets == outlets[..|outlets| - 1] + [last];
      AtStation(outlets[..|outlets| - 1], code) + (if At(last, code) then [last] else [])
  }

  /** The station names the outlets give, blanks left out. */
  function Names(at: seq<Outlet>): seq<string> {
    if at == [] then []
    else
      var n := at[|at| - 1].stationName;
      Names(at[..|at| - 1]) + (if Given(n) then [n.value] else [])
  }

  predicate HoldsToken(o: Outlet) { Given(o.token) && o.active }

  function WithTokens(at: seq<Outlet>): (held: seq<Outlet>)
    ensures forall o :: o in held <==> o in at && HoldsToken(o)
  {
    if at == [] then []
    else
      var last := at[|at| - 1];
      assert at == at[..|at| - 1] + [last];
      WithTokens(at[..|at| - 1]) + (if HoldsToken(last) then [last] else [])
  }

  function Codes(outlets: seq<Outlet>): seq<string> {
    if outlets == [] then []
    else
      var codes, code := Codes(outlets[..|outlets| - 1]), Text.NormaliseStationCode(outlets[|outlets| - 1].stationCode);
      if code == "" || code in codes then codes else codes + [code]
  }

  lemma {:induction false} CodesAreTraded(outlets: seq<Outlet>, code: string)
    ensures code in Codes(outlets) <==> code != "" && exists o :: o in outlets && At(o, code)
    decreases |outlets|
  {
    if outlets != [] {
      var rest, last := outlets[..|outlets| - 1], outlets[|outlets| - 1];
      CodesAreTraded(rest, code);
      assert outlets == rest + [last];
      if At(last, code) { assert last in outlets; }
    }
  }

  lemma {:induction false} CodesAreDistinct(outlets: seq<Outlet>)
    ensures forall i, j :: 0 <= i < j < |Codes(outlets)| ==> Codes(outlets)[i] != Codes(outlets)[j]
    decreases |outlets|
  {
    if outlets != [] { CodesAreDistinct(outlets[..|outlets| - 1]); }
  }

  /** The token a station may take over: that of the only active outlet there which holds one. */
  function OnlyToken(outlets: seq<Outlet>, code: string): Option<string> {
    var held := WithTokens(AtStation(outlets, code));
    if |held| == 1 then held[0].token else None
  }

  function StationAfter(outlets: seq<Outlet>, code: string, before: Option<Station>): Station {
    match before
    case None => Station(CommonestOf(Names(AtStation(outlets, code))), OnlyToken(outlets, code))
    case Some(s) =>
      if !Given(s.token) && OnlyToken(outlets, code).Some? then s.(token := OnlyToken(outlets, code)) else s
  }

  function Lookup(stations: map<string, Station>, code: string): Option<Station> {
    if code in stations then Some(stations[code]) else None
  }

  function StationsAfter(outlets: seq<Outlet>, codes: seq<string>, stations: map<string, Station>): map<string, Station> {
    map c | c in stations.Keys + (set c | c in codes) ::
      if c in codes then StationAfter(outlets, c, Lookup(stations, c)) else stations[c]
  }

  function Created(codes: seq<string>, stations: map<string, Station>): seq<string> {
    if codes == [] then []
    else
      var last := codes[|codes| - 1];
      Created(codes[..|codes| - 1], stations) + (if last in stations then [] else [last])
  }

  predicate Adopts(outlets: seq<Outlet>, code: string, before: Option<Station>) {
    OnlyToken(outlets, code).Some? && (before.None? || !Given(before.value.token))
  }

  function Adopted(outlets: seq<Outlet>, codes: seq<string>, stations: map<string, Station>): seq<string> {
    if codes == [] then []
    else
      var last := codes[|codes| - 1];
      Adopted(outlets, codes[..|codes| - 1], stations) + (if Adopts(outlets, last, Lookup(stations, last)) then [last] else [])
  }

  function WarningsFor(outlets: seq<Outlet>, code: string): seq<Warning> {
    var at := AtStation(outlets, code);
    (if |WithTokens(at)| > 1 then [SeveralTokens(code, |WithTokens(at)|)] else [])
    + (if |Distinct(Names(at))| > 1 then [NamesDisagree(code, CommonestOf(Names(at)))] else [])
  }

  function Warnings(outlets: seq<Outlet>, codes: seq<string>): seq<Warning> {
    if codes == [] then []
    else Warnings(outlets, codes[..|codes| - 1]) + WarningsFor(outlets, codes[|codes| - 1])
  }

  /** The code of an outlet; blank when it has none or does not exist. */
  function CodeOf(outlets: seq<Outlet>, id: nat): string {
    if outlets == [] then ""
    else if outlets[|outlets| - 1].id == id then Text.NormaliseStationCode(outlets[|outlets| - 1].stationCode)
    else CodeOf(outlets[..|outlets| - 1], id)
  }

  function JobAfter(outlets: seq<Outlet>, job: Job): Job {
    if job.stationCode.None? && CodeOf(outlets, job.outlet) != "" then job.(stationCode := Some(CodeOf(outlets, job.outlet)))
    else job
  }

  function JobsAfter(outlets: seq<Outlet>, jobs: seq<Job>): seq<Job> {
    if jobs == [] then []
    else JobsAfter(outlets, jobs[..|jobs| - 1]) + [JobAfter(outlets, jobs[|jobs| - 1])]
  }

  /** How many jobs without a station code have one to take (`found`), or have none. */
  function CountJobs(outlets: seq<Outlet>, jobs: seq<Job>, found: bool): nat {
    if jobs == [] then 0
    else
      var job := jobs[|jobs| - 1];
      CountJobs(outlets, jobs[..|jobs| - 1], found)
      + (if job.stationCode.None? && (CodeOf(outlets, job.outlet) != "") == found then 1 else 0)
  }

  function ReportFor(outlets: seq<Outlet>, stations: map<string, Station>, jobs: seq<Job>): Report {
    var codes := Codes(outlets);
    Report(Created(codes, stations), Adopted(outlets, codes, stations),
           CountJobs(outlets, jobs, true), CountJobs(outlets, jobs, false), Warnings(outlets, codes))
  }

  class Database {
    const outlets: seq<Outlet>
    var stations: map<string, Station>
    var jobs: seq<Job>

    constructor (outlets: seq<Outlet>, stations: map<string, Station>, jobs: seq<Job>)
      ensures this.outlets == outlets && this.stations == stations && this.jobs == jobs
    {
      this.outlets, this.stations, this.jobs := outlets, stations, jobs;
    }

    method MigrateStationPrinting() returns (report: Report)
      modifies this
      ensures stations == StationsAfter(outlets, Codes(outlets), old(stations))
      ensures jobs == JobsAfter(outlets, old(jobs))
      ensures report == ReportFor(outlets, old(stations), old(jobs))
    {
      var created, adopted, warnings := MigrateStations();
      var backfilled, orphans := BackfillJobs();
      report := Report(created, adopted, backfilled, orphans, warnings);
    }

    method MigrateStations() returns (created: seq<string>, adopted: seq<string>, warnings: seq<Warning>)
      modifies this`stations
      ensures stations == StationsAfter(outlets, Codes(outlets), old(stations))
      ensures created == Created(Codes(outlets), old(stations))
      ensures adopted == Adopted(outlets, Codes(outlets), old(stations))
      ensures warnings == Warnings(outlets, Codes(outlets))
    {
      hide StationAfter, StationsAfter, WarningsFor, Adopts;
      var codes := Codes(outlets);
      CodesAreDistinct(outlets);
      NoStationYet(outlets, stations);
      created, adopted, warnings := [], [], [];
      for i := 0 to |codes|
        invariant stations == StationsAfter(outlets, codes[..i], old(stations))
        invariant created == Created(codes[..i], old(stations))
        invariant adopted == Adopted(outlets, codes[..i], old(stations))
        invariant warnings == Warnings(outlets, codes[..i])
      {
        var code := codes[i];
        assert codes[..i + 1][..i] == codes[..i];
        OneMoreStation(outlets, codes[..i], code, old(stations));
        assert codes[..i + 1] == codes[..i] + [code];
        var isNew, adopts, warned := MigrateStation(code);
        if isNew { created := created + [code]; }
        if adopts { adopted := adopted + [code]; }
        warnings := warnings + warned;
      }
      assert codes[..|codes|] == codes;
    }

    /** The body of the loop over the codes. */
    method MigrateStation(code: string) returns (isNew: bool, adopts: bool, warned: seq<Warning>)
      modifies this`stations
      ensures stations == old(stations)[code := StationAfter(outlets, code, Lookup(old(stations), code))]
      ensures isNew <==> code !in old(stations)
      ensures adopts <==> Adopts(outlets, code, Lookup(old(stations), code))
      ensures warned == WarningsFor(outlets, code)
    {
      hide AtStation, Names, WithTokens, Distinct, CommonestOf, Codes, Count, FirstAt;
      var atStation := AtStation(outlets, code);
      var names := Names(atStation);
      var withTokens := WithTokens(atStation);
      var name := Commonest(names);
      isNew, adopts, warned := false, false, [];
      if |withTokens| > 1 { warned := warned + [SeveralTokens(code, |withTokens|)]; }
      if |Distinct(names)| > 1 { warned := warned + [NamesDisagree(code, name)]; }
      OnlyTokenGiven(outlets, code);
      if code !in stations {
        stations := stations[code := Station(name, if |withTokens| == 1 then withTokens[0].token else None)];
        isNew := true;
        if |withTokens| == 1 { adopts := true; }
      } else if !Given(stations[code].token) && |withTokens| == 1 {
        stations := stations[code := stations[code].(token := withTokens[0].token)];
        adopts := true;
      }
    }

    /** Jobs queued under the old shape take the code of their outlet. */
    method BackfillJobs() returns (backfilled: nat, orphans: nat)
      modifies this`jobs
      ensures jobs == JobsAfter(outlets, old(jobs))
      ensures backfilled == CountJobs(outlets, old(jobs), true) && orphans == CountJobs(outlets, old(jobs), false)
    {
      hide JobsAfter, JobAfter, CountJobs;
      backfilled, orphans := 0, 0;
      var legacy := jobs;
      NoJobs(outlets);
      for i := 0 to |legacy|
        invariant |jobs| == |legacy| && forall k :: i <= k < |legacy| ==> jobs[k] == legacy[k]
        invariant jobs[..i] == JobsAfter(outlets, legacy[..i])
        invariant backfilled == CountJobs(outlets, legacy[..i], true)
        invariant orphans == CountJobs(outlets, legacy[..i], false)
      {
        assert legacy[..i + 1] == legacy[..i] + [legacy[i]];
        OneMoreJob(outlets, legacy[..i], legacy[i]);
        ghost var done := jobs[..i];
        if legacy[i].stationCode.None? {
          var code := CodeOf(outlets, legacy[i].outlet);
          if code == "" {
            orphans := orphans + 1;
          } else {
            jobs := jobs[i := jobs[i].(stationCode := Some(code))];
            backfilled := backfilled + 1;
          }
        }
        assert jobs[..i + 1] == done + [jobs[i]];
      }
      assert legacy[..|legacy|] == legacy && jobs[..|jobs|] == jobs;
    }
  }

  lemma NoJobs(outlets: seq<Outlet>)
    ensures JobsAfter(outlets, []) == [] && CountJobs(outlets, [], true) == 0 && CountJobs(outlets, [], false) == 0
  {}

  lemma OneMoreJob(outlets: seq<Outlet>, jobs: seq<Job>, job: Job)
    ensures var code := CodeOf(outlets, job.outlet);
            && JobsAfter(outlets, jobs + [job]) ==
               JobsAfter(outlets, jobs) + [if job.stationCode.None? && code != "" then job.(stationCode := Some(code)) else job]
            && CountJobs(outlets, jobs + [job], true) ==
               CountJobs(outlets, jobs, true) + (if job.stationCode.None? && code != "" then 1 else 0)
            && CountJobs(outlets, jobs + [job], false) ==
               CountJobs(outlets, jobs, false) + (if job.stationCode.None? && code == "" then 1 else 0)
  {
    assert (jobs + [job])[..|jobs|] == jobs;
  }

  lemma NoStationYet(outlets: seq<Outlet>, stations: map<string, Station>)
    ensures StationsAfter(outlets, [], stations) == stations
  {}

  lemma OneMoreStation(outlets: seq<Outlet>, done: seq<string>, code: string, stations: map<string, Station>)
    requires code !in done
    ensures var sofar := StationsAfter(outlets, done, stations);
            && Lookup(sofar, code) == Lookup(stations, code)
            && StationsAfter(outlets, done + [code], stations) == sofar[code := StationAfter(outlets, code, Lookup(stations, code))]
  {
    hide StationAfter;
  }

  lemma OnlyTokenGiven(outlets: seq<Outlet>, code: string)
    ensures OnlyToken(outlets, code).Some? <==> |WithTokens(AtStation(outlets, code))| == 1
    ensures OnlyToken(outlets, code).Some? ==> Given(OnlyToken(outlets, code))
  {
    var held := WithTokens(AtStation(outlets, code));
    if |held| == 1 { assert held[0] in held; }
  }

  // --- what the migration promises -------------------------------------------------------------

  /** A live token is never rotated: a station that had one is left exactly as it was. */
  lemma LiveTokensAreKept(outlets: seq<Outlet>, stations: map<string, Station>, code: string)
    requires code in stations && Given(stations[code].token)
    ensures var after := StationsAfter(outlets, Codes(outlets), stations);
            code in after && after[code] == stations[code]
  {}

  predicate IsHolder(o: Outlet, code: string) { At(o, code) && HoldsToken(o) }

  /** Of the active outlets at `code`, the one in place `i` holds a token, and no other does. */
  ghost predicate OnlyHolder(outlets: seq<Outlet>, code: string, i: nat) {
    && i < |outlets| && IsHolder(outlets[i], code)
    && (forall j: nat :: j < |outlets| && IsHolder(outlets[j], code) ==> j == i)
  }

  lemma HoldersOneMore(outlets: seq<Outlet>, code: string)
    requires outlets != []
    ensures var rest, last := outlets[..|outlets| - 1], outlets[|outlets| - 1];
            WithTokens(AtStation(outlets, code)) ==
            WithTokens(AtStation(rest, code)) + (if IsHolder(last, code) then [last] else [])
  {
    var rest, last := outlets[..|outlets| - 1], outlets[|outlets| - 1];
    var at := AtStation(rest, code);
    if At(last, code) {
      assert AtStation(outlets, code) == at + [last];
      assert (at + [last])[..|at|] == at;
    } else {
      assert AtStation(outlets, code) == at + [] == at;
      assert WithTokens(at) + [] == WithTokens(at);
    }
  }

  lemma NoHolders(outlets: seq<Outlet>, code: string)
    ensures WithTokens(AtStation(outlets, code)) == [] <==> forall o :: o in outlets ==> !IsHolder(o, code)
  {
    var held := WithTokens(AtStation(outlets, code));
    if held != [] { assert held[0] in held; }
  }

  /** The list of holders has one entry exactly when one outlet alone holds a token. */
  lemma {:induction false} OneEntryExactly(outlets: seq<Outlet>, code: string)
    ensures var held := WithTokens(AtStation(outlets, code));
            && (|held| == 1 <==> exists i: nat :: OnlyHolder(outlets, code, i))
            && (forall i: nat :: OnlyHolder(outlets, code, i) ==> held == [outlets[i]])
    decreases |outlets|
  {
    hide AtStation, WithTokens;
    if outlets == [] {
      NoHolders(outlets, code);
    } else {
      var rest, last := outlets[..|outlets| - 1], outlets[|outlets| - 1];
      HoldersOneMore(outlets, code);
      OneEntryExactly(rest, code);
      NoHolders(rest, code);
      assert outlets == rest + [last];
      if IsHolder(last, code) {
        assert OnlyHolder(outlets, code, |rest|) <==> WithTokens(AtStation(rest, code)) == [];
        forall i: nat | OnlyHolder(outlets, code, i) ensures i == |rest| {}
      } else {
        forall i: nat ensures OnlyHolder(outlets, code, i) <==> OnlyHolder(rest, code, i) {
          assert forall j: nat :: j < |rest| ==> outlets[j] == rest[j];
          assert OnlyHolder(outlets, code, i) ==> i < |rest|;
        }
      }
    }
  }

  /**
   A station's token changes exactly when it had none and one outlet there, alone of the active ones,
   holds one; it is then that outlet's token, unchanged.
   */
  lemma TokenChangesExactly(outlets: seq<Outlet>, stations: map<string, Station>, code: string)
    requires code in StationsAfter(outlets, Codes(outlets), stations)
    ensures var after := StationsAfter(outlets, Codes(outlets), stations)[code].token;
            var before := if code in stations then stations[code].token else None;
            && (Given(after) && after != before <==>
                  code in Codes(outlets) && !Given(before) && exists i: nat :: OnlyHolder(outlets, code, i))
            && (forall i: nat :: Given(after) && after != before && OnlyHolder(outlets, code, i) ==> after == outlets[i].token)
  {
    hide Codes, AtStation, WithTokens;
    OnlyTokenGiven(outlets, code);
    OneEntryExactly(outlets, code);
  }

  /** A station that is new takes the name its outlets give most often, of several the one given first. */
  lemma NewStationIsNamed(outlets: seq<Outlet>, stations: map<string, Station>, code: string, name: string)
    requires code in Codes(outlets) && code !in stations
    ensures StationsAfter(outlets, Codes(outlets), stations)[code].name == Some(name) <==>
            IsCommonest(Names(AtStation(outlets, code)), name)
  {
    CommonestIsFirstMostFrequent(Names(AtStation(outlets, code)), name);
  }

  /** A station that was there keeps its name. */
  lemma StationsKeepTheirNames(outlets: seq<Outlet>, stations: map<string, Station>, code: string)
    requires code in stations
    ensures var after := StationsAfter(outlets, Codes(outlets), stations);
            code in after && after[code].name == stations[code].name
  {}

  ghost function NamesAt(outlets: seq<Outlet>, code: string): nat -> bool {
    (p: nat) => p < |outlets| && At(outlets[p], code) && Given(outlets[p].stationName)
  }

  lemma NamesAtInit(outlets: seq<Outlet>, code: string)
    requires outlets != []
    ensures forall p: nat :: p < |outlets| - 1 ==> NamesAt(outlets[..|outlets| - 1], code)(p) == NamesAt(outlets, code)(p)
    ensures var n, names := |outlets| - 1, Names(AtStation(outlets[..|outlets| - 1], code));
            if NamesAt(outlets, code)(n) then
              Given(outlets[n].stationName) && Names(AtStation(outlets, code)) == names + [outlets[n].stationName.value]
            else Names(AtStation(outlets, code)) == names
  {
    hide Given;
    var at, last := AtStation(outlets[..|outlets| - 1], code), outlets[|outlets| - 1];
    if At(last, code) {
      assert AtStation(outlets, code) == at + [last];
      NamesOneMore(at, last);
    } else {
      assert AtStation(outlets, code) == at + [] == at;
    }
  }

  lemma NamesOneMore(at: seq<Outlet>, last: Outlet)
    ensures Names(at + [last]) == if Given(last.stationName) then Names(at) + [last.stationName.value] else Names(at)
  {
    assert (at + [last])[..|at|] == at;
    assert Names(at) + [] == Names(at);
  }

  function GivenNames(outlets: seq<Outlet>): seq<string> {
    seq(|outlets|, i requires 0 <= i < |outlets| => if outlets[i].stationName.Some? then outlets[i].stationName.value else "")
  }

  lemma GivenNamesInit(outlets: seq<Outlet>)
    requires outlets != []
    ensures var n := |outlets| - 1;
            && |GivenNames(outlets)| == n + 1 && GivenNames(outlets)[..n] == GivenNames(outlets[..n])
            && (Given(outlets[n].stationName) ==> GivenNames(outlets)[n] == outlets[n].stationName.value)
  {}

  /** The names counted are those the outlets at the station give, each as often as given and in order. */
  lemma {:induction false} NamesAreGiven(outlets: seq<Outlet>, code: string) returns (at: seq<nat>)
    ensures Places.Lists(at, |outlets|, NamesAt(outlets, code))
    ensures Places.Picks(Names(AtStation(outlets, code)), GivenNames(outlets), at)
    decreases |outlets|
  {
    at := [];
    if outlets != [] {
      hide NamesAt, Places.Lists, Places.Picks, Names, AtStation, At, GivenNames, Given;
      var n := |outlets| - 1;
      at := NamesAreGiven(outlets[..n], code);
      GivenNamesInit(outlets);
      NamesAtInit(outlets, code);
      Places.FilterOneMore(Names(AtStation(outlets[..n], code)), GivenNames(outlets), at,
                           NamesAt(outlets[..n], code), NamesAt(outlets, code));
      at := if NamesAt(outlets, code)(n) then at + [n] else at;
    }
  }

  /** The report names a code as created, or as adopting a token, exactly when it is one of the outlets'
      and its station was not there, or took a token. */
  lemma {:induction false} ReportNamesExactly(outlets: seq<Outlet>, codes: seq<string>, stations: map<string, Station>, code: string)
    ensures code in Created(codes, stations) <==> code in codes && code !in stations
    ensures code in Adopted(outlets, codes, stations) <==>
            code in codes && !(code in stations && Given(stations[code].token)) && exists i: nat :: OnlyHolder(outlets, code, i)
    decreases |codes|
  {
    hide OnlyToken;
    if codes != [] {
      var init, last := codes[..|codes| - 1], codes[|codes| - 1];
      assert codes == init + [last];
      ReportNamesExactly(outlets, init, stations, code);
    }
    OneEntryExactly(outlets, code);
    OnlyTokenExactly(outlets, code);
  }

  lemma OnlyTokenExactly(outlets: seq<Outlet>, code: string)
    ensures OnlyToken(outlets, code).Some? <==> |WithTokens(AtStation(outlets, code))| == 1
  {
    OnlyTokenGiven(outlets, code);
  }

  ghost function HoldersAt(outlets: seq<Outlet>, code: string): nat -> bool {
    (p: nat) => p < |outlets| && IsHolder(outlets[p], code)
  }

  lemma {:induction false} HoldersAreCounted(outlets: seq<Outlet>, code: string)
    ensures |WithTokens(AtStation(outlets, code))| == |Places.Where(|outlets|, HoldersAt(outlets, code))|
    decreases |outlets|
  {
    if outlets == [] {
      NoHolders(outlets, code);
    } else {
      hide WithTokens, AtStation, HoldersAt, Places.Where;
      var n := |outlets| - 1;
      HoldersAreCounted(outlets[..n], code);
      HoldersOneMore(outlets, code);
      HoldersAtInit(outlets, code);
      Places.WhereOneMore(n, HoldersAt(outlets, code));
      Places.WhereAgrees(n, HoldersAt(outlets[..n], code), HoldersAt(outlets, code));
    }
  }

  lemma HoldersAtInit(outlets: seq<Outlet>, code: string)
    requires outlets != []
    ensures forall p: nat :: p < |outlets| - 1 ==> HoldersAt(outlets[..|outlets| - 1], code)(p) == HoldersAt(outlets, code)(p)
    ensures HoldersAt(outlets, code)(|outlets| - 1) <==> IsHolder(outlets[|outlets| - 1], code)
  {}

  lemma {:induction false} DistinctCounts(values: seq<string>)
    ensures |Distinct(values)| > 1 <==> exists u, v :: u in values && v in values && u != v
  {
    var d := Distinct(values);
    if |d| > 1 {
      DistinctByFirst(values, 0, 1);
      assert d[0] in values && d[1] in values;
    } else {
      forall u, v | u in values && v in values ensures u == v { assert u in d && v in d; }
    }
  }

  lemma {:induction false} WarningsOf(outlets: seq<Outlet>, codes: seq<string>, w: Warning)
    ensures w in Warnings(outlets, codes) <==> exists code :: code in codes && w in WarningsFor(outlets, code)
    decreases |codes|
  {
    hide WarningsFor;
    if codes != [] {
      var init, last := codes[..|codes| - 1], codes[|codes| - 1];
      assert codes == init + [last];
      WarningsOf(outlets, init, w);
    }
  }

  /** A warning is there exactly when several active outlets at a station hold tokens, or its outlets
      give it different names; it says how many, or which name is the commonest. */
  lemma WarningsAreExact(outlets: seq<Outlet>, code: string, n: nat, kept: Option<string>)
    ensures SeveralTokens(code, n) in Warnings(outlets, Codes(outlets)) <==>
            code in Codes(outlets) && n > 1 && n == |Places.Where(|outlets|, HoldersAt(outlets, code))|
    ensures NamesDisagree(code, kept) in Warnings(outlets, Codes(outlets)) <==>
            && code in Codes(outlets) && kept.Some? && IsCommonest(Names(AtStation(outlets, code)), kept.value)
            && exists u, v :: u in Names(AtStation(outlets, code)) && v in Names(AtStation(outlets, code)) && u != v
  {
    hide CommonestOf, Distinct, Codes, Names, AtStation, WithTokens, IsCommonest, Warnings, Places.Where;
    WarningsOf(outlets, Codes(outlets), SeveralTokens(code, n));
    WarningsOf(outlets, Codes(outlets), NamesDisagree(code, kept));
    HoldersAreCounted(outlets, code);
    DistinctCounts(Names(AtStation(outlets, code)));
    if kept.Some? { CommonestIsFirstMostFrequent(Names(AtStation(outlets, code)), kept.value); }
    SomeIsCommonest(Names(AtStation(outlets, code)));
  }

  lemma SomeIsCommonest(values: seq<string>)
    ensures CommonestOf(values).None? <==> values == []
  {
    var d := Distinct(values);
    BestOfPrefix(values, |d|);
    assert d[..|d|] == d;
    if values != [] { assert values[0] in d; }
    if d != [] { assert d[0] in values; }
  }

  /** Every station some outlet trades at exists afterwards, and no station is lost. */
  lemma StationsAreComplete(outlets: seq<Outlet>, stations: map<string, Station>, code: string)
    ensures code in StationsAfter(outlets, Codes(outlets), stations) <==>
            code in stations || (code != "" && exists o :: o in outlets && At(o, code))
  {
    CodesAreTraded(outlets, code);
  }

  lemma {:induction false} NoneCreatedAgain(outlets: seq<Outlet>, codes: seq<string>, stations: map<string, Station>)
    requires forall c :: c in codes ==> c in stations && !Adopts(outlets, c, Lookup(stations, c))
    ensures Created(codes, stations) == [] && Adopted(outlets, codes, stations) == []
    decreases |codes|
  {
    if codes != [] { NoneCreatedAgain(outlets, codes[..|codes| - 1], stations); }
  }

  lemma {:induction false} JobsSettle(outlets: seq<Outlet>, jobs: seq<Job>)
    ensures JobsAfter(outlets, JobsAfter(outlets, jobs)) == JobsAfter(outlets, jobs)
    ensures CountJobs(outlets, JobsAfter(outlets, jobs), true) == 0
    ensures CountJobs(outlets, JobsAfter(outlets, jobs), false) == CountJobs(outlets, jobs, false)
    ensures |JobsAfter(outlets, jobs)| == |jobs|
    decreases |jobs|
  {
    if jobs != [] {
      JobsSettle(outlets, jobs[..|jobs| - 1]);
      var after := JobsAfter(outlets, jobs);
      assert after[..|after| - 1] == JobsAfter(outlets, jobs[..|jobs| - 1]);
    }
  }

  ghost predicate DistinctOutlets(outlets: seq<Outlet>) {
    forall i, j :: 0 <= i < j < |outlets| ==> outlets[i].id != outlets[j].id
  }

  lemma {:induction false} CodeOfIsTheOutlets(outlets: seq<Outlet>, id: nat)
    requires DistinctOutlets(outlets)
    ensures forall o :: o in outlets && o.id == id ==> CodeOf(outlets, id) == Text.NormaliseStationCode(o.stationCode)
    ensures (forall o :: o in outlets ==> o.id != id) ==> CodeOf(outlets, id) == ""
    decreases |outlets|
  {
    if outlets != [] {
      var init, last := outlets[..|outlets| - 1], outlets[|outlets| - 1];
      assert outlets == init + [last];
      CodeOfIsTheOutlets(init, id);
      forall o | o in init ensures o.id != last.id {
        var i :| 0 <= i < |init| && init[i] == o;
        assert outlets[i].id != outlets[|outlets| - 1].id;
      }
    }
  }

  /** The outlet a job was queued for trades at a station. */
  predicate HasStation(outlets: seq<Outlet>, job: Job) {
    exists o :: o in outlets && o.id == job.outlet && Text.NormaliseStationCode(o.stationCode) != ""
  }

  lemma CodeOfIsGiven(outlets: seq<Outlet>, job: Job)
    requires DistinctOutlets(outlets)
    ensures HasStation(outlets, job) <==> CodeOf(outlets, job.outlet) != ""
  {
    CodeOfIsTheOutlets(outlets, job.outlet);
  }

  lemma {:induction false} JobsAfterAt(outlets: seq<Outlet>, jobs: seq<Job>, i: nat)
    requires i < |jobs|
    ensures |JobsAfter(outlets, jobs)| == |jobs| && JobsAfter(outlets, jobs)[i] == JobAfter(outlets, jobs[i])
    decreases |jobs|
  {
    var n := |jobs| - 1;
    if n > 0 { JobsAfterAt(outlets, jobs[..n], if i < n then i else 0); }
  }

  /** Jobs stay in place; one without a code takes the code of its own outlet, if that has one, and no
      other job changes. */
  lemma JobsTakeTheirOutletsCode(outlets: seq<Outlet>, jobs: seq<Job>, i: nat)
    requires DistinctOutlets(outlets) && i < |jobs|
    ensures |JobsAfter(outlets, jobs)| == |jobs|
    ensures var before, after := jobs[i], JobsAfter(outlets, jobs)[i];
            && (before.stationCode.Some? || !HasStation(outlets, before) ==> after == before)
            && (before.stationCode.None? ==>
                  forall o :: o in outlets && o.id == before.outlet && Text.NormaliseStationCode(o.stationCode) != "" ==>
                    after == before.(stationCode := Some(Text.NormaliseStationCode(o.stationCode))))
  {
    JobsAfterAt(outlets, jobs, i);
    CodeOfIsTheOutlets(outlets, jobs[i].outlet);
    CodeOfIsGiven(outlets, jobs[i]);
  }

  /** The places of the jobs without a code whose outlet has one to give (`found`), or has none. */
  ghost function LegacyAt(outlets: seq<Outlet>, jobs: seq<Job>, found: bool): nat -> bool {
    (p: nat) => p < |jobs| && jobs[p].stationCode.None? && HasStation(outlets, jobs[p]) == found
  }

  /** The report's two numbers of jobs are how many there are of either kind. */
  lemma {:induction false} BackfillIsCounted(outlets: seq<Outlet>, jobs: seq<Job>, found: bool)
    requires DistinctOutlets(outlets)
    ensures CountJobs(outlets, jobs, found) == |Places.Where(|jobs|, LegacyAt(outlets, jobs, found))|
    decreases |jobs|
  {
    hide HasStation;
    if jobs != [] {
      var n := |jobs| - 1;
      BackfillIsCounted(outlets, jobs[..n], found);
      CodeOfIsGiven(outlets, jobs[n]);
      Places.WhereOneMore(n, LegacyAt(outlets, jobs, found));
      Places.WhereAgrees(n, LegacyAt(outlets, jobs[..n], found), LegacyAt(outlets, jobs, found));
    }
  }

  lemma StationSettles(outlets: seq<Outlet>, code: string, before: Option<Station>)
    ensures var after := StationAfter(outlets, code, before);
            StationAfter(outlets, code, Some(after)) == after && !Adopts(outlets, code, Some(after))
  {
    OnlyTokenGiven(outlets, code);
  }

  lemma StationsSettle(outlets: seq<Outlet>, codes: seq<string>, stations: map<string, Station>)
    ensures var once := StationsAfter(outlets, codes, stations);
            && StationsAfter(outlets, codes, once) == once
            && Created(codes, once) == [] && Adopted(outlets, codes, once) == []
  {
    hide StationAfter, Adopts;
    var once := StationsAfter(outlets, codes, stations);
    forall c | c in codes
      ensures once[c] == StationAfter(outlets, c, Some(once[c])) && !Adopts(outlets, c, Lookup(once, c))
    {
      StationSettles(outlets, c, Lookup(stations, c));
    }
    NoneCreatedAgain(outlets, codes, once);
  }

  /** A second run changes nothing and reports nothing done; only orphaned jobs are counted again. */
  lemma SecondRunChangesNothing(outlets: seq<Outlet>, stations: map<string, Station>, jobs: seq<Job>)
    ensures var once, done := StationsAfter(outlets, Codes(outlets), stations), JobsAfter(outlets, jobs);
            var report := ReportFor(outlets, once, done);
            && StationsAfter(outlets, Codes(outlets), once) == once
            && JobsAfter(outlets, done) == done
            && report.stationsCreated == [] && report.tokensAdopted == []
            && report.jobsBackfilled == 0 && report.orphanJobs == CountJobs(outlets, jobs, false)
  {
    hide StationsAfter;
    JobsSettle(outlets, jobs);
    StationsSettle(outlets, Codes(outlets), stations);
  }
}
