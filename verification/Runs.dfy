/** Train runs: all orders for one train, service date and station go to the platform together. */
module Runs {
  import opened Options
  import Text
  import ServiceDates
  import opened Sorting

  const NO_TRAIN := "NOTRAIN"
  const LOCAL_RUN := "LOCAL"
  const SEP := '~'

  datatype Order = Order(
    id: nat,
    trainNo: Option<string>,
    orderType: Option<string>,
    serviceDate: string,
    stationCode: string,
    coach: Option<string>,
    status: string,
    scheduledArrival: Option<int>,
    trainName: Option<string>)

  datatype Run = Run(
    key: string,
    local: bool,
    trainNo: Option<string>,
    trainName: Option<string>,
    serviceDate: string,
    stationCode: string,
    scheduledArrival: Option<int>,
    orders: seq<Order>,
    statusCounts: map<string, nat>)

  // --- keys ------------------------------------------------------------------------------------

  predicate IsLocal(o: Order) { o.orderType == Some("LOCAL") }

  function HeadOf(o: Order): string {
    if IsLocal(o) then LOCAL_RUN
    else if o.trainNo.Some? && o.trainNo.value != "" then o.trainNo.value
    else NO_TRAIN
  }

  function RunKeyFor(o: Order): string { HeadOf(o) + [SEP] + o.serviceDate + [SEP] + o.stationCode }

  datatype RunIdentity = RunIdentity(trainNo: Option<string>, serviceDate: string, stationCode: string, local: bool)

  function Split(s: string): (parts: seq<string>)
    ensures parts != []
  {
    if s == [] then [""]
    else
      var rest := Split(s[1..]);
      if s[0] == SEP then [""] + rest else [[s[0]] + rest[0]] + rest[1..]
  }

  function ParseRunKey(key: string): Option<RunIdentity> {
    var parts := Split(key);
    if |parts| != 3 then None
    else if !ServiceDates.DateShaped(parts[1]) then None
    else if parts[2] == "" then None
    else
      var local := parts[0] == LOCAL_RUN;
      Some(RunIdentity(if parts[0] == NO_TRAIN || local then None else Some(parts[0]), parts[1], parts[2], local))
  }

  /** The train, date and station an order stands for. */
  function IdentityOf(o: Order): RunIdentity {
    RunIdentity(if IsLocal(o) || o.trainNo == Some("") then None else o.trainNo, o.serviceDate, o.stationCode, IsLocal(o))
  }

  lemma {:induction false} SplitNone(s: string)
    requires SEP !in s
    ensures Split(s) == [s]
    decreases |s|
  {
    if s != [] {
      SplitNone(s[1..]);
      assert s == [s[0]] + s[1..];
    }
  }

  lemma {:induction false} SplitFirst(a: string, b: string)
    requires SEP !in a
    ensures Split(a + [SEP] + b) == [a] + Split(b)
    decreases |a|
  {
    var s := a + [SEP] + b;
    if a == [] {
      assert s[1..] == b;
    } else {
      assert s[1..] == a[1..] + [SEP] + b;
      SplitFirst(a[1..], b);
      assert a == [a[0]] + a[1..];
    }
  }

  predicate Plain(o: Order) {
    SEP !in HeadOf(o) && SEP !in o.stationCode && ServiceDates.DateShaped(o.serviceDate) && o.stationCode != ""
  }

  lemma KeySplits(o: Order)
    requires Plain(o)
    ensures Split(RunKeyFor(o)) == [HeadOf(o), o.serviceDate, o.stationCode]
  {
    assert RunKeyFor(o) == HeadOf(o) + [SEP] + (o.serviceDate + [SEP] + o.stationCode);
    SplitFirst(HeadOf(o), o.serviceDate + [SEP] + o.stationCode);
    assert SEP !in o.serviceDate;
    SplitFirst(o.serviceDate, o.stationCode);
    SplitNone(o.stationCode);
  }

  /**
   A key reads back as the order's own train, date and station exactly when the train is not
   numbered with one of the two words the key uses for "no train".
   */
  lemma KeyRoundTripsExactly(o: Order)
    requires Plain(o)
    ensures ParseRunKey(RunKeyFor(o)) == Some(IdentityOf(o)) <==>
            IsLocal(o) || (o.trainNo != Some(NO_TRAIN) && o.trainNo != Some(LOCAL_RUN))
  {
    KeySplits(o);
  }

  /** Orders whose keys agree stand for the same train, date and station, and conversely. */
  lemma KeysIdentify(o: Order, p: Order)
    requires Plain(o) && Plain(p)
    requires o.trainNo != Some(NO_TRAIN) && o.trainNo != Some(LOCAL_RUN)
    requires p.trainNo != Some(NO_TRAIN) && p.trainNo != Some(LOCAL_RUN)
    ensures RunKeyFor(o) == RunKeyFor(p) <==> IdentityOf(o) == IdentityOf(p)
  {
    KeyRoundTripsExactly(o);
    KeyRoundTripsExactly(p);
  }

  function JoinParts(parts: seq<string>): string
    requires parts != []
  {
    if |parts| == 1 then parts[0] else parts[0] + [SEP] + JoinParts(parts[1..])
  }

  lemma {:induction false} SplitTakesApart(s: string)
    ensures JoinParts(Split(s)) == s && forall part :: part in Split(s) ==> SEP !in part
    decreases |s|
  {
    if s != [] {
      var rest := Split(s[1..]);
      SplitTakesApart(s[1..]);
      assert s == [s[0]] + s[1..];
      if s[0] == SEP {
        assert ([""] + rest)[1..] == rest;
        assert "" + [SEP] + s[1..] == s;
      } else {
        var parts := [[s[0]] + rest[0]] + rest[1..];
        assert parts[1..] == rest[1..];
        assert rest[0] in rest;
        if |rest| > 1 {
          assert [s[0]] + rest[0] + [SEP] + JoinParts(rest[1..]) == [s[0]] + (rest[0] + [SEP] + JoinParts(rest[1..]));
        }
        forall part | part in parts ensures SEP !in part {
          if part != parts[0] { assert part in rest[1..]; }
        }
      }
    }
  }

  /** A key reads as something exactly when it has three parts, a date in the middle and a station at the end. */
  lemma KeysReadExactly(key: string)
    ensures ParseRunKey(key).Some? <==>
            exists head, date, station :: HasParts(key, head, date, station) && ServiceDates.DateShaped(date) && station != ""
    ensures forall head, date, station :: HasParts(key, head, date, station) && ParseRunKey(key).Some? ==>
              ParseRunKey(key).value ==
              RunIdentity(if head == NO_TRAIN || head == LOCAL_RUN then None else Some(head), date, station, head == LOCAL_RUN)
  {
    SplitTakesApart(key);
    var parts := Split(key);
    if |parts| == 3 {
      assert parts[1..][1..] == parts[2..] && parts[2..][0] == parts[2];
      assert JoinParts(parts[1..]) == parts[1] + [SEP] + parts[2];
      assert key == parts[0] + [SEP] + (parts[1] + [SEP] + parts[2]) == parts[0] + [SEP] + parts[1] + [SEP] + parts[2];
      assert HasParts(key, parts[0], parts[1], parts[2]);
    }
    forall head, date, station | HasParts(key, head, date, station) ensures parts == [head, date, station] {
      assert key == head + [SEP] + (date + [SEP] + station);
      SplitFirst(head, date + [SEP] + station);
      SplitFirst(date, station);
      SplitNone(station);
    }
  }

  predicate HasParts(key: string, head: string, date: string, station: string) {
    && SEP !in head && SEP !in date && SEP !in station
    && key == head + [SEP] + date + [SEP] + station
  }

  // --- coaches ---------------------------------------------------------------------------------

  function LetterPrefix(s: string): string {
    if s != [] && Text.IsUpper(s[0]) then [s[0]] + LetterPrefix(s[1..]) else []
  }

  /** The value of the digits at the front; 0 when there are none. */
  function NumberPrefix(s: string, value: nat): nat {
    if s != [] && Text.IsDigit(s[0]) then NumberPrefix(s[1..], 10 * value + (s[0] as int - '0' as int)) else value
  }

  lemma {:induction false} LetterPrefixLength(s: string)
    ensures |LetterPrefix(s)| <= |s|
    decreases |s|
  {
    if s != [] { LetterPrefixLength(s[1..]); }
  }

  datatype Coach = Coach(alpha: string, num: nat)

  function ParseCoach(c: string): Coach {
    var t := Text.Upper(Text.Trim(c));
    var alpha := LetterPrefix(t);
    LetterPrefixLength(t);
    Coach(alpha, NumberPrefix(t[|alpha|..], 0))
  }

  function CompareCoach(a: Option<string>, b: Option<string>): int {
    if !Given(a) && !Given(b) then 0
    else if !Given(a) then 1
    else if !Given(b) then -1
    else
      var pa, pb := ParseCoach(a.value), ParseCoach(b.value);
      if pa.alpha != pb.alpha then Text.Compare(pa.alpha, pb.alpha) else pa.num - pb.num
  }

  function ByCoach(a: Order, b: Order): int { CompareCoach(a.coach, b.coach) }

  lemma CompareCoachFlips(a: Option<string>, b: Option<string>)
    ensures CompareCoach(a, b) < 0 <==> CompareCoach(b, a) > 0
  {
    if Given(a) && Given(b) {
      Text.CompareFlips(ParseCoach(a.value).alpha, ParseCoach(b.value).alpha);
    }
  }

  lemma CompareCoachTransitive(a: Option<string>, b: Option<string>, c: Option<string>)
    requires CompareCoach(a, b) <= 0 && CompareCoach(b, c) <= 0
    ensures CompareCoach(a, c) <= 0
  {
    if Given(a) && Given(b) && Given(c) {
      var pa, pb, pc := ParseCoach(a.value), ParseCoach(b.value), ParseCoach(c.value);
      Text.CompareFlips(pa.alpha, pb.alpha);
      Text.CompareFlips(pb.alpha, pc.alpha);
      Text.CompareFlips(pa.alpha, pc.alpha);
      Text.CompareTransitive(pa.alpha, pb.alpha, pc.alpha);
    }
  }

  /** compareCoach orders by whether there is a coach, then its letters, then its number. */
  lemma ByCoachIsWeakOrder()
    ensures WeakOrder(ByCoach)
  {
    forall a, b
      ensures ByCoach(a, b) < 0 <==> ByCoach(b, a) > 0
    {
      CompareCoachFlips(a.coach, b.coach);
    }
    forall a, b, c | ByCoach(a, b) <= 0 && ByCoach(b, c) <= 0
      ensures ByCoach(a, c) <= 0
    {
      CompareCoachTransitive(a.coach, b.coach, c.coach);
    }
  }

  function Decimal(n: nat): (s: string)
    ensures s != [] && forall c :: c in s ==> Text.IsDigit(c)
  {
    var last := ['0' + (n % 10) as char];
    if n < 10 then last else Decimal(n / 10) + last
  }

  /** What a label reads: its letters, its number (0 when it has none), and a rest that is not looked at. */
  ghost predicate Labelled(c: string, letters: string, n: nat, rest: string) {
    && (forall l :: l in letters ==> Text.IsUpper(l))
    && (|| (Text.Upper(Text.Trim(c)) == letters + Decimal(n) + rest && (rest == [] || !Text.IsDigit(rest[0])))
        || (n == 0 && Text.Upper(Text.Trim(c)) == letters + rest
            && (rest == [] || (!Text.IsDigit(rest[0]) && !Text.IsUpper(rest[0])))))
  }

  lemma {:induction false} LettersRead(letters: string, rest: string)
    requires (forall l :: l in letters ==> Text.IsUpper(l)) && (rest == [] || !Text.IsUpper(rest[0]))
    ensures LetterPrefix(letters + rest) == letters
    decreases |letters|
  {
    if letters == [] {
      assert letters + rest == rest;
    } else {
      assert letters[0] in letters && (letters + rest)[1..] == letters[1..] + rest;
      LettersRead(letters[1..], rest);
      assert letters == [letters[0]] + letters[1..];
    }
  }

  lemma {:induction false} NumberReads(n: nat, rest: string)
    ensures NumberPrefix(Decimal(n) + rest, 0) == NumberPrefix(rest, n)
    decreases n
  {
    var last := ['0' + (n % 10) as char];
    assert (last + rest)[1..] == rest;
    if n >= 10 {
      assert Decimal(n) + rest == Decimal(n / 10) + (last + rest);
      NumberReads(n / 10, last + rest);
    }
  }

  lemma LabelReads(c: string, letters: string, n: nat, rest: string)
    requires Labelled(c, letters, n, rest)
    ensures ParseCoach(c) == Coach(letters, n)
  {
    var t := Text.Upper(Text.Trim(c));
    if t == letters + Decimal(n) + rest && (rest == [] || !Text.IsDigit(rest[0])) {
      assert t == letters + (Decimal(n) + rest);
      assert (Decimal(n) + rest)[0] == Decimal(n)[0] && Decimal(n)[0] in Decimal(n);
      LettersRead(letters, Decimal(n) + rest);
      assert t[|letters|..] == Decimal(n) + rest;
      NumberReads(n, rest);
    } else {
      LettersRead(letters, rest);
      assert t[|letters|..] == rest;
    }
  }

  /** Coaches compare by their letters, and under the same letters by the value of their numbers. */
  lemma CoachesCompareByLetterThenNumber(
    a: string, x: string, m: nat, restA: string, b: string, y: string, n: nat, restB: string)
    requires a != "" && b != "" && Labelled(a, x, m, restA) && Labelled(b, y, n, restB)
    ensures CompareCoach(Some(a), Some(b)) < 0 <==> (if x != y then Text.Compare(x, y) < 0 else m < n)
    ensures CompareCoach(Some(a), Some(b)) == 0 <==> x == y && m == n
  {
    LabelReads(a, x, m, restA);
    LabelReads(b, y, n, restB);
    Text.CompareFlips(x, y);
  }

  /** Neither case nor blanks around a label make a difference. */
  lemma CoachIgnoresCaseAndBlanks(c: string, before: string, d: string, after: string)
    requires Text.Blank(before) && Text.Blank(after) && Text.Trimmed(d) && Text.Upper(d) == Text.Upper(Text.Trim(c))
    ensures ParseCoach(before + d + after) == ParseCoach(c)
  {
    Text.TrimIgnoresBlanks(before, d, after);
  }

  // --- grouping --------------------------------------------------------------------------------

  /** The keys in the order in which they first appear. */
  function Keys(orders: seq<Order>): seq<string> {
    if orders == [] then []
    else
      var ks := Keys(orders[..|orders| - 1]);
      var k := RunKeyFor(orders[|orders| - 1]);
      if k in ks then ks else ks + [k]
  }

  /** The orders under one key, in order. */
  function Bucket(orders: seq<Order>, key: string): seq<Order> {
    if orders == [] then []
    else
      var o := orders[|orders| - 1];
      Bucket(orders[..|orders| - 1], key) + (if RunKeyFor(o) == key then [o] else [])
  }

  function Counted(counts: map<string, nat>, status: string): nat {
    if status in counts then counts[status] else 0
  }

  function StatusCounts(list: seq<Order>): map<string, nat> {
    if list == [] then map[]
    else
      var counts := StatusCounts(list[..|list| - 1]);
      var status := list[|list| - 1].status;
      counts[status := Counted(counts, status) + 1]
  }

  /** The booked arrivals that are known. */
  function Arrivals(list: seq<Order>): seq<int> {
    if list == [] then []
    else
      var a := list[|list| - 1].scheduledArrival;
      Arrivals(list[..|list| - 1]) + (if a.Some? then [a.value] else [])
  }

  function Earliest(list: seq<Order>): Option<int> {
    var arrivals := SortBy(Arrivals(list), ByTime);
    if arrivals == [] then None else Some(arrivals[0])
  }

  function FirstTrainName(list: seq<Order>): Option<string> {
    if list == [] then None
    else if Given(list[0].trainName) then list[0].trainName
    else FirstTrainName(list[1..])
  }

  function RunOf(key: string, list: seq<Order>): (run: Run)
    requires list != []
    ensures run.key == key && run.orders == list
  {
    var first := list[0];
    Run(key, IsLocal(first),
        if IsLocal(first) then None else first.trainNo,
        if IsLocal(first) then None else FirstTrainName(list),
        first.serviceDate, first.stationCode,
        Earliest(list),
        list, StatusCounts(list))
  }

  /** Soonest first, unknown last. */
  function ByArrival(a: Option<int>, b: Option<int>): int {
    if a.None? && b.None? then 0
    else if a.None? then 1
    else if b.None? then -1
    else a.value - b.value
  }

  function ByRunArrival(a: Run, b: Run): int { ByArrival(a.scheduledArrival, b.scheduledArrival) }

  lemma {:induction false} BucketNonEmpty(orders: seq<Order>, key: string)
    ensures key in Keys(orders) <==> Bucket(orders, key) != []
    decreases |orders|
  {
    if orders != [] { BucketNonEmpty(orders[..|orders| - 1], key); }
  }

  ghost predicate Distinct(keys: seq<string>) {
    forall i, j :: 0 <= i < j < |keys| ==> keys[i] != keys[j]
  }

  lemma {:induction false} KeysAreDistinct(orders: seq<Order>)
    ensures Distinct(Keys(orders))
    ensures forall o :: o in orders ==> RunKeyFor(o) in Keys(orders)
    decreases |orders|
  {
    if orders != [] {
      var init := orders[..|orders| - 1];
      KeysAreDistinct(init);
      assert orders == init + [orders[|orders| - 1]];
    }
  }

  function SortedBucket(orders: seq<Order>, key: string): seq<Order> { SortBy(Bucket(orders, key), ByCoach) }

  lemma SortedBucketNonEmpty(orders: seq<Order>, key: string)
    requires key in Keys(orders)
    ensures SortedBucket(orders, key) != []
  {
    BucketNonEmpty(orders, key);
    SortPermutes(Bucket(orders, key), ByCoach);
  }

  ghost predicate AllFilled(orders: seq<Order>, keys: seq<string>) {
    forall k :: k in keys ==> SortedBucket(orders, k) != []
  }

  lemma KeysAreFilled(orders: seq<Order>)
    ensures AllFilled(orders, Keys(orders))
  {
    forall k | k in Keys(orders)
      ensures SortedBucket(orders, k) != []
    {
      SortedBucketNonEmpty(orders, k);
    }
  }

  /** One run for each key. */
  function RunsFor(orders: seq<Order>, keys: seq<string>): (runs: seq<Run>)
    requires AllFilled(orders, keys)
    ensures |runs| == |keys|
  {
    if keys == [] then []
    else
      var key := keys[|keys| - 1];
      RunsFor(orders, keys[..|keys| - 1]) + [RunOf(key, SortedBucket(orders, key))]
  }

  function Grouped(orders: seq<Order>): seq<Run> {
    KeysAreFilled(orders);
    SortBy(RunsFor(orders, Keys(orders)), ByRunArrival)
  }

  lemma NoOrders()
    ensures Keys([]) == []
  {}

  lemma OneMoreOrder(orders: seq<Order>, o: Order)
    ensures var key := RunKeyFor(o);
            && Keys(orders + [o]) == (if key in Keys(orders) then Keys(orders) else Keys(orders) + [key])
            && (forall k :: Bucket(orders + [o], k) == if k == key then Bucket(orders, k) + [o] else Bucket(orders, k))
            && (key !in Keys(orders) ==> Bucket(orders, key) == [])
  {
    assert (orders + [o])[..|orders|] == orders;
    BucketNonEmpty(orders, RunKeyFor(o));
  }

  /** groupIntoRuns: fill a map of lists in insertion order, then build and sort the runs. */
  method GroupIntoRuns(orders: seq<Order>) returns (runs: seq<Run>)
    ensures runs == Grouped(orders)
  {
    hide Keys, Bucket, RunKeyFor;
    var keys: seq<string>, byKey: map<string, seq<Order>> := [], map[];
    NoOrders();
    for i := 0 to |orders|
      invariant keys == Keys(orders[..i])
      invariant forall k :: k in byKey <==> k in keys
      invariant forall k :: k in byKey ==> byKey[k] == Bucket(orders[..i], k)
    {
      var o := orders[i];
      assert orders[..i + 1] == orders[..i] + [o];
      var key := RunKeyFor(o);
      OneMoreOrder(orders[..i], o);
      if key in byKey {
        byKey := byKey[key := byKey[key] + [o]];
      } else {
        byKey := byKey[key := [o]];
        keys := keys + [key];
      }
    }
    assert orders[..|orders|] == orders;
    KeysAreFilled(orders);
    runs := BuildRuns(orders, keys, byKey);
    runs := SortBy(runs, ByRunArrival);
  }

  method BuildRuns(ghost orders: seq<Order>, keys: seq<string>, byKey: map<string, seq<Order>>) returns (runs: seq<Run>)
    requires AllFilled(orders, keys)
    requires forall k :: k in keys ==> k in byKey && byKey[k] == Bucket(orders, k)
    ensures runs == RunsFor(orders, keys)
  {
    runs := [];
    for n := 0 to |keys|
      invariant runs == RunsFor(orders, keys[..n])
    {
      var key := keys[n];
      assert keys[..n + 1][..n] == keys[..n];
      var list := SortBy(byKey[key], ByCoach);
      assert list == SortedBucket(orders, key);
      var statusCounts := CountStatuses(list);
      var arrivals := SortBy(Arrivals(list), ByTime);
      var local := IsLocal(list[0]);
      runs := runs + [Run(
        key, local,
        if local then None else list[0].trainNo,
        if local then None else FirstTrainName(list),
        list[0].serviceDate, list[0].stationCode,
        if arrivals == [] then None else Some(arrivals[0]),
        list, statusCounts)];
    }
    assert keys[..|keys|] == keys;
  }

  method CountStatuses(list: seq<Order>) returns (counts: map<string, nat>)
    ensures counts == StatusCounts(list)
  {
    counts := map[];
    for i := 0 to |list|
      invariant counts == StatusCounts(list[..i])
    {
      assert list[..i + 1][..i] == list[..i];
      var o := list[i];
      counts := counts[o.status := Counted(counts, o.status) + 1];
    }
    assert list[..|list|] == list;
  }

  // --- what the grouping promises --------------------------------------------------------------

  function Flatten(runs: seq<Run>): seq<Order> {
    if runs == [] then [] else runs[0].orders + Flatten(runs[1..])
  }

  lemma {:induction false} FlattenAppend(a: seq<Run>, b: seq<Run>)
    ensures Flatten(a + b) == Flatten(a) + Flatten(b)
    decreases |a|
  {
    if a == [] {
      assert a + b == b;
    } else {
      assert (a + b)[1..] == a[1..] + b;
      FlattenAppend(a[1..], b);
    }
  }

  lemma {:induction false} FlattenInsert(r: Run, s: seq<Run>)
    ensures multiset(Flatten(Insert(r, s, ByRunArrival))) == multiset(r.orders) + multiset(Flatten(s))
    decreases |s|
  {
    if s != [] && ByRunArrival(r, s[0]) > 0 {
      FlattenInsert(r, s[1..]);
      assert Insert(r, s, ByRunArrival)[1..] == Insert(r, s[1..], ByRunArrival);
    } else {
      assert Insert(r, s, ByRunArrival) == [r] + s;
      assert ([r] + s)[1..] == s;
    }
  }

  lemma {:induction false} FlattenSorted(s: seq<Run>)
    ensures multiset(Flatten(SortBy(s, ByRunArrival))) == multiset(Flatten(s))
    decreases |s|
  {
    if s != [] {
      FlattenSorted(s[1..]);
      FlattenInsert(s[0], SortBy(s[1..], ByRunArrival));
    }
  }

  /** The orders whose key is one of the first `n`. */
  function Under(orders: seq<Order>, keys: seq<string>): seq<Order> {
    if orders == [] then []
    else
      var o := orders[|orders| - 1];
      Under(orders[..|orders| - 1], keys) + (if RunKeyFor(o) in keys then [o] else [])
  }

  lemma {:induction false} UnderOneMore(orders: seq<Order>, keys: seq<string>, key: string)
    requires key !in keys
    ensures multiset(Under(orders, keys + [key])) == multiset(Under(orders, keys)) + multiset(Bucket(orders, key))
    decreases |orders|
  {
    if orders != [] {
      UnderOneMore(orders[..|orders| - 1], keys, key);
    }
  }

  lemma {:induction false} UnderAll(orders: seq<Order>, keys: seq<string>)
    ensures (forall o :: o in orders ==> RunKeyFor(o) in keys) ==> Under(orders, keys) == orders
    ensures keys == [] ==> Under(orders, keys) == []
    decreases |orders|
  {
    if orders != [] {
      assert orders == orders[..|orders| - 1] + [orders[|orders| - 1]];
      UnderAll(orders[..|orders| - 1], keys);
    }
  }

  lemma {:induction false} RunsForHold(orders: seq<Order>, keys: seq<string>)
    requires AllFilled(orders, keys) && Distinct(keys)
    ensures multiset(Flatten(RunsFor(orders, keys))) == multiset(Under(orders, keys))
    decreases |keys|
  {
    if keys == [] {
      UnderAll(orders, []);
    } else {
      var front, key := keys[..|keys| - 1], keys[|keys| - 1];
      assert keys == front + [key];
      RunsForHold(orders, front);
      UnderOneMore(orders, front, key);
      SortPermutes(Bucket(orders, key), ByCoach);
      var last := RunOf(key, SortedBucket(orders, key));
      FlattenAppend(RunsFor(orders, front), [last]);
      FlattenOne(last);
    }
  }

  lemma FlattenOne(run: Run)
    ensures Flatten([run]) == run.orders
  {
    assert [run][1..] == [];
  }

  /** No order is lost, repeated or invented. */
  lemma RunsPartitionOrders(orders: seq<Order>)
    ensures multiset(Flatten(Grouped(orders))) == multiset(orders)
  {
    KeysAreFilled(orders);
    KeysAreDistinct(orders);
    FlattenSorted(RunsFor(orders, Keys(orders)));
    RunsForHold(orders, Keys(orders));
    UnderAll(orders, Keys(orders));
  }

  lemma {:induction false} RunsForAt(orders: seq<Order>, keys: seq<string>, i: nat)
    requires AllFilled(orders, keys) && i < |keys|
    ensures RunsFor(orders, keys)[i] == RunOf(keys[i], SortedBucket(orders, keys[i]))
    decreases |keys|
  {
    if i < |keys| - 1 { RunsForAt(orders, keys[..|keys| - 1], i); }
  }

  ghost predicate IsRunOf(orders: seq<Order>, key: string, run: Run) {
    SortedBucket(orders, key) != [] && run == RunOf(key, SortedBucket(orders, key))
  }

  /** Each run is the run of one key, and each key has its run. */
  lemma RunsAreKeyed(orders: seq<Order>, run: Run)
    ensures run in Grouped(orders) <==> exists key :: key in Keys(orders) && IsRunOf(orders, key, run)
  {
    KeysAreFilled(orders);
    var keys := Keys(orders);
    SortPermutes(RunsFor(orders, keys), ByRunArrival);
    if run in Grouped(orders) {
      assert run in RunsFor(orders, keys);
      var i :| 0 <= i < |keys| && RunsFor(orders, keys)[i] == run;
      RunsForAt(orders, keys, i);
      assert IsRunOf(orders, keys[i], run);
    }
    if key :| key in keys && IsRunOf(orders, key, run) {
      var i :| 0 <= i < |keys| && keys[i] == key;
      RunsForAt(orders, keys, i);
    }
  }

  lemma {:induction false} BucketMembers(orders: seq<Order>, key: string)
    ensures forall o :: o in Bucket(orders, key) <==> o in orders && RunKeyFor(o) == key
    decreases |orders|
  {
    if orders != [] {
      var init := orders[..|orders| - 1];
      BucketMembers(init, key);
      assert orders == init + [orders[|orders| - 1]];
    }
  }

  /** A run holds every order with its key and no other, sorted by coach, ties in their first order. */
  lemma RunHoldsItsKey(orders: seq<Order>, run: Run)
    requires run in Grouped(orders)
    ensures forall o :: o in run.orders <==> o in orders && RunKeyFor(o) == run.key
    ensures SortedBy(run.orders, ByCoach)
    ensures forall o :: Tied(run.orders, o, ByCoach) == Tied(Bucket(orders, run.key), o, ByCoach)
  {
    RunsAreKeyed(orders, run);
    var bucket := Bucket(orders, run.key);
    SortPermutes(bucket, ByCoach);
    BucketMembers(orders, run.key);
    ByCoachIsWeakOrder();
    SortSorts(bucket, ByCoach);
    forall o
      ensures Tied(run.orders, o, ByCoach) == Tied(bucket, o, ByCoach)
    {
      SortIsStable(bucket, o, ByCoach);
    }
  }

  /** So the walk along a run goes letter by letter, under each letter by number, and orders without a coach come last. */
  lemma RunWalksByCoach(orders: seq<Order>, run: Run, i: nat, j: nat)
    requires run in Grouped(orders) && i < j < |run.orders|
    ensures var a, b := run.orders[i].coach, run.orders[j].coach;
            && (!Given(a) ==> !Given(b))
            && (forall x, m: nat, restA, y, n: nat, restB ::
                  Given(a) && Given(b) && Labelled(a.value, x, m, restA) && Labelled(b.value, y, n, restB) ==>
                    if x != y then Text.Compare(x, y) < 0 else m <= n)
  {
    hide ParseCoach, Labelled;
    RunHoldsItsKey(orders, run);
    var a, b := run.orders[i].coach, run.orders[j].coach;
    assert ByCoach(run.orders[i], run.orders[j]) <= 0;
    forall x, m: nat, restA, y, n: nat, restB
      | Given(a) && Given(b) && Labelled(a.value, x, m, restA) && Labelled(b.value, y, n, restB)
      ensures if x != y then Text.Compare(x, y) < 0 else m <= n
    {
      CoachesCompareByLetterThenNumber(a.value, x, m, restA, b.value, y, n, restB);
    }
  }

  lemma {:induction false} FirstTrainNameIsFirst(list: seq<Order>)
    ensures FirstTrainName(list).None? <==> forall o :: o in list ==> !Given(o.trainName)
    ensures FirstTrainName(list).Some? ==>
              exists i :: 0 <= i < |list| && Given(list[i].trainName) && list[i].trainName == FirstTrainName(list)
                          && forall j :: 0 <= j < i ==> !Given(list[j].trainName)
    decreases |list|
  {
    if list != [] && !Given(list[0].trainName) {
      var rest := list[1..];
      assert list == [list[0]] + rest;
      FirstTrainNameIsFirst(rest);
      if FirstTrainName(rest).Some? {
        var i :| 0 <= i < |rest| && Given(rest[i].trainName) && rest[i].trainName == FirstTrainName(rest)
                 && forall j :: 0 <= j < i ==> !Given(rest[j].trainName);
        assert list[i + 1] == rest[i];
        assert forall j :: 0 < j < i + 1 ==> list[j] == rest[j - 1];
      }
    }
  }

  /** A run of train orders bears the first train name on it; a run of local orders bears none. */
  lemma RunNamesItsTrain(orders: seq<Order>, run: Run)
    requires run in Grouped(orders)
    ensures run.local ==> run.trainName.None?
    ensures !run.local ==> (run.trainName.None? <==> forall o :: o in run.orders ==> !Given(o.trainName))
    ensures run.trainName.Some? ==>
              exists i :: 0 <= i < |run.orders| && Given(run.orders[i].trainName) && run.orders[i].trainName == run.trainName
                          && forall j :: 0 <= j < i ==> !Given(run.orders[j].trainName)
  {
    RunsAreKeyed(orders, run);
    FirstTrainNameIsFirst(run.orders);
  }

  /** What a run's header says, and what its key reads as, is true of every order on it. */
  lemma RunNamesItsOrders(orders: seq<Order>, run: Run, o: Order)
    requires run in Grouped(orders) && o in run.orders
    requires forall p :: p in orders ==> Plain(p) && p.trainNo != Some(NO_TRAIN) && p.trainNo != Some(LOCAL_RUN)
    ensures ParseRunKey(run.key) == Some(IdentityOf(o))
    ensures run.serviceDate == o.serviceDate && run.stationCode == o.stationCode
    ensures run.local <==> o.orderType == Some("LOCAL")
    ensures Given(run.trainNo) ==> run.trainNo == IdentityOf(o).trainNo
    ensures !Given(run.trainNo) ==> IdentityOf(o).trainNo.None?
  {
    hide Grouped, ParseRunKey, RunKeyFor, Keys, ByCoach;
    RunHoldsItsKey(orders, run);
    RunsAreKeyed(orders, run);
    KeyRoundTripsExactly(o);
    KeyRoundTripsExactly(run.orders[0]);
    assert run.orders[0] in run.orders;
  }

  /** Two orders travel together exactly when their keys agree. */
  lemma TogetherExactlyWhenKeysAgree(orders: seq<Order>, a: Order, b: Order)
    requires a in orders && b in orders
    ensures (exists run :: run in Grouped(orders) && a in run.orders && b in run.orders)
       <==> RunKeyFor(a) == RunKeyFor(b)
  {
    if run :| run in Grouped(orders) && a in run.orders && b in run.orders {
      RunHoldsItsKey(orders, run);
    }
    if RunKeyFor(a) == RunKeyFor(b) {
      var key := RunKeyFor(a);
      KeysAreDistinct(orders);
      SortedBucketNonEmpty(orders, key);
      var run := RunOf(key, SortedBucket(orders, key));
      assert IsRunOf(orders, key, run);
      RunsAreKeyed(orders, run);
      RunHoldsItsKey(orders, run);
    }
  }

  function HowMany(list: seq<Order>, status: string): nat {
    if list == [] then 0
    else HowMany(list[..|list| - 1], status) + (if list[|list| - 1].status == status then 1 else 0)
  }

  lemma {:induction false} StatusCountsCount(list: seq<Order>, status: string)
    ensures Counted(StatusCounts(list), status) == HowMany(list, status)
    ensures status in StatusCounts(list) <==> HowMany(list, status) > 0
    decreases |list|
  {
    if list != [] { StatusCountsCount(list[..|list| - 1], status); }
  }

  /** A run counts each status as often as its orders hold it, and lists no other. */
  lemma RunCountsStatuses(orders: seq<Order>, run: Run, status: string)
    requires run in Grouped(orders)
    ensures Counted(run.statusCounts, status) == HowMany(run.orders, status)
    ensures status in run.statusCounts <==> exists o :: o in run.orders && o.status == status
  {
    RunsAreKeyed(orders, run);
    StatusCountsCount(run.orders, status);
    HowManyPositive(run.orders, status);
  }

  lemma {:induction false} HowManyPositive(list: seq<Order>, status: string)
    ensures HowMany(list, status) > 0 <==> exists o :: o in list && o.status == status
    decreases |list|
  {
    if list != [] {
      var init, last := list[..|list| - 1], list[|list| - 1];
      HowManyPositive(init, status);
      assert list == init + [last];
      if last.status == status { assert last in list; }
    }
  }

  lemma {:induction false} ArrivalsAreKnown(list: seq<Order>, t: int)
    ensures t in Arrivals(list) <==> exists o :: o in list && o.scheduledArrival == Some(t)
    decreases |list|
  {
    if list != [] {
      var init, last := list[..|list| - 1], list[|list| - 1];
      ArrivalsAreKnown(init, t);
      assert list == init + [last];
      if last.scheduledArrival == Some(t) { assert last in list; }
    }
  }

  lemma EarliestIsKnown(list: seq<Order>)
    ensures Earliest(list).Some? ==> exists o :: o in list && o.scheduledArrival == Earliest(list)
  {
    var known := Arrivals(list);
    SortPermutes(known, ByTime);
    if Earliest(list).Some? {
      assert SortBy(known, ByTime)[0] in known;
      ArrivalsAreKnown(list, Earliest(list).value);
    }
  }

  lemma EarliestIsLeast(list: seq<Order>, o: Order)
    requires o in list && o.scheduledArrival.Some?
    ensures Earliest(list).Some? && Earliest(list).value <= o.scheduledArrival.value
  {
    var known, t := Arrivals(list), o.scheduledArrival.value;
    var sorted := SortBy(known, ByTime);
    ArrivalsAreKnown(list, t);
    SortPermutes(known, ByTime);
    ByTimeIsWeakOrder();
    SortSorts(known, ByTime);
    var i :| 0 <= i < |sorted| && sorted[i] == t;
    if i > 0 { assert ByTime(sorted[0], sorted[i]) <= 0; }
  }

  /** A run arrives when the first of its orders does; unknown only when none of them knows. */
  lemma RunTakesEarliestArrival(orders: seq<Order>, run: Run)
    requires run in Grouped(orders)
    ensures run.scheduledArrival.Some? ==> exists o :: o in run.orders && o.scheduledArrival == run.scheduledArrival
    ensures forall o :: o in run.orders && o.scheduledArrival.Some? ==>
              run.scheduledArrival.Some? && run.scheduledArrival.value <= o.scheduledArrival.value
  {
    RunsAreKeyed(orders, run);
    assert run.scheduledArrival == Earliest(run.orders);
    EarliestIsKnown(run.orders);
    forall o | o in run.orders && o.scheduledArrival.Some?
      ensures Earliest(run.orders).Some? && Earliest(run.orders).value <= o.scheduledArrival.value
    {
      EarliestIsLeast(run.orders, o);
    }
  }

  lemma ByRunArrivalIsWeakOrder()
    ensures WeakOrder(ByRunArrival)
  {}

  /** Runs come soonest first; those with no known arrival come last. */
  lemma RunsComeSoonestFirst(orders: seq<Order>, i: nat, j: nat)
    requires i < j < |Grouped(orders)|
    ensures var a, b := Grouped(orders)[i].scheduledArrival, Grouped(orders)[j].scheduledArrival;
            b.Some? ==> a.Some? && a.value <= b.value
  {
    ByRunArrivalIsWeakOrder();
    KeysAreFilled(orders);
    SortSorts(RunsFor(orders, Keys(orders)), ByRunArrival);
    assert ByRunArrival(Grouped(orders)[i], Grouped(orders)[j]) <= 0;
  }

  /** No key has two runs. */
  lemma RunsHaveDistinctKeys(orders: seq<Order>, i: nat, j: nat)
    requires i < j < |Grouped(orders)|
    ensures Grouped(orders)[i].key != Grouped(orders)[j].key
  {
    var runs, keys := Grouped(orders), Keys(orders);
    if runs[i].key == runs[j].key {
      RunsAreKeyed(orders, runs[i]);
      RunsAreKeyed(orders, runs[j]);
      assert runs[i] == runs[j];
      KeysAreFilled(orders);
      KeysAreDistinct(orders);
      SortPermutes(RunsFor(orders, keys), ByRunArrival);
      TwiceInMultiset(runs, i, j);
      OnceInRunsFor(orders, keys, runs[i]);
    }
  }

  lemma TwiceInMultiset(s: seq<Run>, i: nat, j: nat)
    requires i < j < |s| && s[i] == s[j]
    ensures multiset(s)[s[i]] >= 2
  {
    assert s == s[..j] + [s[j]] + s[j + 1..];
    assert s[i] in s[..j];
  }

  lemma {:induction false} OnceInRunsFor(orders: seq<Order>, keys: seq<string>, run: Run)
    requires AllFilled(orders, keys) && Distinct(keys)
    ensures multiset(RunsFor(orders, keys))[run] <= 1
    ensures run in RunsFor(orders, keys) ==> run.key in keys
    decreases |keys|
  {
    if keys != [] {
      var front, key := keys[..|keys| - 1], keys[|keys| - 1];
      assert keys == front + [key];
      OnceInRunsFor(orders, front, run);
    }
  }
}
