/** migrate-aggregator-listings: aggregator storefronts stop being outlets. */
module ListingMigration {
  import opened Options
  import Text

  datatype Restaurant = Restaurant(
    id: nat, name: string, stationCode: string, aliases: seq<string>, token: Option<string>, active: bool)

  datatype Order = Order(restaurant: nat, source: string)

  datatype Listing = Listing(name: string, aliases: seq<string>, source: Option<string>, stationCode: string, restaurant: nat)

  datatype Station = Station(defaultRestaurant: Option<nat>, token: Option<string>)

  datatype Db = Db(
    restaurants: seq<Restaurant>,
    orders: map<nat, Order>,
    listings: seq<Listing>,
    stations: map<string, Station>,
    users: map<nat, seq<nat>>)

  /** The command line: the real kitchens' names, and each station's default outlet by name. */
  datatype Config = Config(outlets: seq<string>, defaults: map<string, string>)

  datatype Problem = NoOutletsGiven | UnknownOutlet | TokenAtRisk | NoSuchDefault

  // --- names and rows --------------------------------------------------------------------------

  function Collapse(s: string): string {
    if |s| < 2 then s
    else if Text.IsSpace(s[0]) && Text.IsSpace(s[1]) then Collapse(s[1..])
    else [if Text.IsSpace(s[0]) then ' ' else s[0]] + Collapse(s[1..])
  }

  function Norm(s: string): string { Collapse(Text.Upper(Text.Trim(s))) }

  /** The words of a text: its stretches without a blank. */
  function Words(s: string): seq<string> {
    if s == [] then []
    else
      var rest := Words(s[1..]);
      if Text.IsSpace(s[0]) then rest
      else if |s| == 1 || Text.IsSpace(s[1]) || rest == [] then [[s[0]]] + rest
      else [[s[0]] + rest[0]] + rest[1..]
  }

  function Spaced(words: seq<string>): string {
    if words == [] then "" else if |words| == 1 then words[0] else words[0] + " " + Spaced(words[1..])
  }

  lemma {:induction false} CollapseSpacesWords(s: string)
    requires s != [] && !Text.IsSpace(s[|s| - 1])
    ensures Words(s) != []
    ensures Collapse(s) == (if Text.IsSpace(s[0]) then " " else "") + Spaced(Words(s))
    decreases |s|
  {
    if |s| > 1 {
      var t := s[1..];
      CollapseSpacesWords(t);
      if !Text.IsSpace(s[0]) {
        if Text.IsSpace(t[0]) { NewWordSpaced(s[0], Words(t)); } else { LongerWordSpaced(s[0], Words(t)); }
      }
    }
  }

  lemma NewWordSpaced(c: char, words: seq<string>)
    requires words != []
    ensures Spaced([[c]] + words) == [c] + (" " + Spaced(words))
  {
    assert ([[c]] + words)[1..] == words;
  }

  lemma LongerWordSpaced(c: char, words: seq<string>)
    requires words != []
    ensures Spaced([[c] + words[0]] + words[1..]) == [c] + Spaced(words)
  {
    assert ([[c] + words[0]] + words[1..])[1..] == words[1..];
    if |words| > 1 {
      assert [c] + (words[0] + " " + Spaced(words[1..])) == [c] + words[0] + " " + Spaced(words[1..]);
    }
  }

  lemma {:induction false} WordsSkipFront(blanks: string, s: string)
    requires Text.Blank(blanks)
    ensures Words(blanks + s) == Words(s)
    decreases |blanks|
  {
    if blanks == [] {
      assert blanks + s == s;
    } else {
      assert blanks[0] in blanks && (blanks + s)[1..] == blanks[1..] + s;
      WordsSkipFront(blanks[1..], s);
    }
  }

  lemma {:induction false} WordsSkipEnd(s: string, blanks: string)
    requires Text.Blank(blanks)
    ensures Words(s + blanks) == Words(s)
    decreases |s|
  {
    if s == [] {
      assert s + blanks == blanks == blanks + [];
      WordsSkipFront(blanks, []);
    } else {
      assert (s + blanks)[1..] == s[1..] + blanks;
      WordsSkipEnd(s[1..], blanks);
      if |s| == 1 && |blanks| > 0 {
        assert blanks[0] in blanks;
        assert s[1..] == [];
      }
    }
  }

  lemma UpperOfParts(a: string, b: string)
    ensures Text.Upper(a + b) == Text.Upper(a) + Text.Upper(b)
  {}

  lemma UpperOfBlank(s: string)
    requires Text.Blank(s)
    ensures Text.Blank(Text.Upper(s))
  {
    forall c | c in Text.Upper(s) ensures Text.IsSpace(c) {
      var i :| 0 <= i < |s| && Text.Upper(s)[i] == c;
      assert s[i] in s;
    }
  }

  /** A name in its normal form is its words in capitals with one space between: neither case nor the
      number and kind of blanks makes a difference, and nothing else is lost. */
  lemma NormIsTheWords(s: string)
    ensures Norm(s) == Spaced(Words(Text.Upper(s)))
  {
    var before, after := Text.TrimStripsBlanks(s);
    var t := Text.Trim(s);
    UpperOfParts(before + t, after);
    UpperOfParts(before, t);
    UpperOfBlank(before);
    UpperOfBlank(after);
    assert Text.Upper(s) == Text.Upper(before) + Text.Upper(t) + Text.Upper(after);
    WordsSkipEnd(Text.Upper(before) + Text.Upper(t), Text.Upper(after));
    WordsSkipFront(Text.Upper(before), Text.Upper(t));
    if t != [] {
      assert Text.Upper(t)[0] == Text.UpperChar(t[0]) && Text.Upper(t)[|t| - 1] == Text.UpperChar(t[|t| - 1]);
      CollapseSpacesWords(Text.Upper(t));
    }
  }

  predicate IsReal(cfg: Config, r: Restaurant) { exists n :: n in cfg.outlets && Norm(n) == Norm(r.name) }

  predicate IsOutlet(cfg: Config, r: Restaurant) { r.active && IsReal(cfg, r) }

  predicate IsStorefront(cfg: Config, r: Restaurant) { r.active && !IsReal(cfg, r) }

  ghost predicate UniqueIds(rows: seq<Restaurant>) {
    forall i, j :: 0 <= i < j < |rows| ==> rows[i].id != rows[j].id
  }

  function FindById(rows: seq<Restaurant>, id: nat): Option<Restaurant> {
    if rows == [] then None else if rows[0].id == id then Some(rows[0]) else FindById(rows[1..], id)
  }

  predicate Cooks(cfg: Config, r: Restaurant, code: string) {
    && IsOutlet(cfg, r) && Text.NormaliseStationCode(r.stationCode) == code
    && (code in cfg.defaults ==> Norm(r.name) == cfg.defaults[code])
  }

  /** The outlet that cooks for a station's storefronts: its default, or else the first there. */
  function TargetAt(cfg: Config, rows: seq<Restaurant>, code: string): Option<Restaurant> {
    if rows == [] then None else if Cooks(cfg, rows[0], code) then Some(rows[0]) else TargetAt(cfg, rows[1..], code)
  }

  function TargetOf(cfg: Config, rows: seq<Restaurant>, row: Restaurant): Option<Restaurant> {
    TargetAt(cfg, rows, Text.NormaliseStationCode(row.stationCode))
  }

  function Storefronts(cfg: Config, rows: seq<Restaurant>): (found: seq<Restaurant>)
    ensures forall r :: r in found <==> r in rows && IsStorefront(cfg, r)
  {
    if rows == [] then []
    else
      assert rows == [rows[0]] + rows[1..];
      (if IsStorefront(cfg, rows[0]) then [rows[0]] else []) + Storefronts(cfg, rows[1..])
  }

  lemma {:induction false} TargetCooks(cfg: Config, rows: seq<Restaurant>, code: string)
    ensures match TargetAt(cfg, rows, code)
            case None => forall r :: r in rows ==> !Cooks(cfg, r, code)
            case Some(t) => t in rows && Cooks(cfg, t, code)
    decreases |rows|
  {
    if rows != [] {
      assert rows == [rows[0]] + rows[1..];
      TargetCooks(cfg, rows[1..], code);
    }
  }

  /** The target is the first row in the list that is active, a real kitchen, at the station, and of the
      default's name if the station has a default. */
  lemma {:induction false} TargetIsTheFirst(cfg: Config, rows: seq<Restaurant>, code: string)
    ensures TargetAt(cfg, rows, code).None? <==> forall i :: 0 <= i < |rows| ==> !MayCook(cfg, rows[i], code)
    ensures TargetAt(cfg, rows, code).Some? ==>
              exists i :: 0 <= i < |rows| && rows[i] == TargetAt(cfg, rows, code).value && MayCook(cfg, rows[i], code)
                          && forall j :: 0 <= j < i ==> !MayCook(cfg, rows[j], code)
    decreases |rows|
  {
    if rows != [] && !MayCook(cfg, rows[0], code) {
      var rest := rows[1..];
      TargetIsTheFirst(cfg, rest, code);
      assert forall i :: 0 < i < |rows| ==> rows[i] == rest[i - 1];
      if TargetAt(cfg, rest, code).Some? {
        var i :| 0 <= i < |rest| && rest[i] == TargetAt(cfg, rest, code).value && MayCook(cfg, rest[i], code)
                 && forall j :: 0 <= j < i ==> !MayCook(cfg, rest[j], code);
        assert rows[i + 1] == rest[i];
        assert TargetAt(cfg, rows, code) == TargetAt(cfg, rest, code);
      } else {
        forall i | 0 <= i < |rows| ensures !MayCook(cfg, rows[i], code) {
          if i > 0 { assert !MayCook(cfg, rest[i - 1], code); }
        }
      }
    }
  }

  predicate MayCook(cfg: Config, r: Restaurant, code: string) {
    && r.active && (exists n :: n in cfg.outlets && Norm(n) == Norm(r.name))
    && Text.NormaliseStationCode(r.stationCode) == code
    && (code in cfg.defaults ==> Norm(r.name) == cfg.defaults[code])
  }

  lemma {:induction false} FindByIdFinds(rows: seq<Restaurant>, r: Restaurant)
    requires UniqueIds(rows)
    ensures r in rows <==> FindById(rows, r.id) == Some(r)
    decreases |rows|
  {
    if rows != [] {
      assert rows == [rows[0]] + rows[1..];
      FindByIdFinds(rows[1..], r);
      forall i | 1 <= i < |rows| ensures rows[i].id != rows[0].id {}
      assert rows[0].id == r.id ==> r !in rows[1..];
    }
  }

  lemma SameRow(rows: seq<Restaurant>, r: Restaurant, q: Restaurant)
    requires UniqueIds(rows) && r in rows && q in rows && r.id == q.id
    ensures r == q
  {
    FindByIdFinds(rows, r);
    FindByIdFinds(rows, q);
  }

  lemma {:induction false} FindByIdNames(rows: seq<Restaurant>, id: nat)
    ensures match FindById(rows, id)
            case None => forall r :: r in rows ==> r.id != id
            case Some(r) => r in rows && r.id == id
    decreases |rows|
  {
    if rows != [] {
      assert rows == [rows[0]] + rows[1..];
      FindByIdNames(rows[1..], id);
    }
  }

  // --- one storefront --------------------------------------------------------------------------

  function Sources(orders: map<nat, Order>, row: nat): set<string> {
    set o | o in orders && orders[o].restaurant == row :: orders[o].source
  }

  predicate Listed(listings: seq<Listing>, name: string, code: string) {
    exists l :: l in listings && l.name == name && l.stationCode == code
  }

  function OnlyElement(s: set<string>): (x: Option<string>)
    ensures x.Some? <==> |s| == 1
    ensures x.Some? ==> s == {x.value}
  {
    if |s| != 1 then None
    else
      SingletonIs(s);
      var x :| s == {x};
      Some(x)
  }

  lemma SingletonIs(s: set<string>)
    requires |s| == 1
    ensures exists x :: s == {x}
  {
    var x :| x in s;
    assert |s - {x}| == 0;
    assert s == {x};
  }

  function Repointed(orders: map<nat, Order>, from: nat, to: nat): map<nat, Order> {
    map o | o in orders :: if orders[o].restaurant == from then orders[o].(restaurant := to) else orders[o]
  }

  function Retired(rows: seq<Restaurant>, id: nat): seq<Restaurant> {
    seq(|rows|, i requires 0 <= i < |rows| => if rows[i].id == id then rows[i].(active := false) else rows[i])
  }

  /** A storefront row becomes a listing of the outlet behind it; one with no outlet is left alone. */
  function RowAfter(cfg: Config, all: seq<Restaurant>, db: Db, row: Restaurant): (after: Db)
    ensures after.stations == db.stations && after.users == db.users && after.orders.Keys == db.orders.Keys
    ensures |after.restaurants| == |db.restaurants|
  {
    match TargetOf(cfg, all, row)
    case None => db
    case Some(target) =>
      var code := Text.NormaliseStationCode(row.stationCode);
      var listing := Listing(row.name, row.aliases, OnlyElement(Sources(db.orders, row.id)), code, target.id);
      db.(listings := if Listed(db.listings, row.name, code) then db.listings else db.listings + [listing],
          orders := Repointed(db.orders, row.id, target.id),
          restaurants := Retired(db.restaurants, row.id))
  }

  function RowsAfter(cfg: Config, all: seq<Restaurant>, db: Db, rows: seq<Restaurant>): (after: Db)
    ensures after.stations == db.stations && after.users == db.users && after.orders.Keys == db.orders.Keys
    ensures |after.restaurants| == |db.restaurants|
  {
    if rows == [] then db
    else RowAfter(cfg, all, RowsAfter(cfg, all, db, rows[..|rows| - 1]), rows[|rows| - 1])
  }

  lemma NoRows(cfg: Config, all: seq<Restaurant>, db: Db)
    ensures RowsAfter(cfg, all, db, []) == db
  {}

  lemma OneMoreRow(cfg: Config, all: seq<Restaurant>, db: Db, rows: seq<Restaurant>, row: Restaurant)
    ensures RowsAfter(cfg, all, db, rows + [row]) == RowAfter(cfg, all, RowsAfter(cfg, all, db, rows), row)
  {
    assert (rows + [row])[..|rows|] == rows;
  }

  lemma NoneToRepoint(orders: map<nat, Order>, from: nat, to: nat)
    requires forall o :: o in orders ==> orders[o].restaurant != from
    ensures Repointed(orders, from, to) == orders
  {}

  // --- staff -----------------------------------------------------------------------------------

  predicate HasOrders(orders: map<nat, Order>, row: nat) { exists o :: o in orders && orders[o].restaurant == row }

  /** Deactivated before today and holding no orders. */
  predicate IsDead(cfg: Config, orders: map<nat, Order>, r: Restaurant) {
    !r.active && !IsReal(cfg, r) && !HasOrders(orders, r.id)
  }

  function StorefrontIds(cfg: Config, all: seq<Restaurant>): set<nat> {
    set r | r in all && IsStorefront(cfg, r) :: r.id
  }

  function DeadIds(cfg: Config, all: seq<Restaurant>, orders: map<nat, Order>): set<nat> {
    set r | r in all && IsDead(cfg, orders, r) :: r.id
  }

  /** What an id in a user's scope becomes. */
  function NewId(cfg: Config, all: seq<Restaurant>, orders: map<nat, Order>, id: nat): Option<nat> {
    match FindById(all, id)
    case None => None
    case Some(r) =>
      if !IsStorefront(cfg, r) then (if IsDead(cfg, orders, r) then None else Some(id))
      else
        match TargetOf(cfg, all, r)
        case None => None
        case Some(target) => Some(target.id)
  }

  function Rescoped(cfg: Config, all: seq<Restaurant>, orders: map<nat, Order>, ids: seq<nat>): seq<nat> {
    if ids == [] then []
    else
      var after, id := Rescoped(cfg, all, orders, ids[..|ids| - 1]), NewId(cfg, all, orders, ids[|ids| - 1]);
      if id.Some? && id.value !in after then after + [id.value] else after
  }

  predicate SameScope(next: seq<nat>, before: seq<nat>) {
    |next| == |before| && forall id :: id in next ==> id in before
  }

  /** The stored scope is only written when it differs. */
  function ScopeAfter(cfg: Config, all: seq<Restaurant>, orders: map<nat, Order>, ids: seq<nat>): seq<nat> {
    var next := Rescoped(cfg, all, orders, ids);
    if SameScope(next, ids) then ids else next
  }

  function UsersAfter(cfg: Config, all: seq<Restaurant>, orders: map<nat, Order>, users: map<nat, seq<nat>>): map<nat, seq<nat>> {
    map u | u in users :: ScopeAfter(cfg, all, orders, users[u])
  }

  /** The users once those of `done` are looked at. */
  function UsersOf(
    cfg: Config, all: seq<Restaurant>, orders: map<nat, Order>, users: map<nat, seq<nat>>, done: set<nat>): map<nat, seq<nat>>
  {
    map u | u in users :: if u in done then ScopeAfter(cfg, all, orders, users[u]) else users[u]
  }

  function Scoped(users: map<nat, seq<nat>>): set<nat> { set u | u in users && users[u] != [] }

  lemma AllRescoped(cfg: Config, all: seq<Restaurant>, orders: map<nat, Order>, users: map<nat, seq<nat>>)
    ensures UsersOf(cfg, all, orders, users, {}) == users
    ensures Scoped(users) <= users.Keys
    ensures UsersOf(cfg, all, orders, users, Scoped(users)) == UsersAfter(cfg, all, orders, users)
  {
    assert ScopeAfter(cfg, all, orders, []) == [];
  }

  lemma OneMoreRescoped(
    cfg: Config, all: seq<Restaurant>, orders: map<nat, Order>, users: map<nat, seq<nat>>, done: set<nat>, u: nat)
    requires u in users && u !in done
    ensures var now := UsersOf(cfg, all, orders, users, done);
            && now.Keys == users.Keys && now[u] == users[u]
            && UsersOf(cfg, all, orders, users, done + {u}) == now[u := ScopeAfter(cfg, all, orders, users[u])]
  {}

  // --- the whole run ---------------------------------------------------------------------------

  predicate DefaultsExist(cfg: Config, rows: seq<Restaurant>) {
    forall code :: code in cfg.defaults ==> TargetAt(cfg, rows, code).Some?
  }

  predicate OutletsExist(cfg: Config, rows: seq<Restaurant>) {
    forall n :: n in cfg.outlets ==> exists r :: r in rows && r.active && Norm(r.name) == Norm(n)
  }

  predicate StationHasToken(stations: map<string, Station>, code: string) {
    code in stations && Given(stations[code].token)
  }

  /** No storefront is retired while it holds its station's only print token. */
  predicate TokensSafe(cfg: Config, rows: seq<Restaurant>, stations: map<string, Station>) {
    forall r :: r in rows && IsStorefront(cfg, r) && Given(r.token) ==> StationHasToken(stations, Text.NormaliseStationCode(r.stationCode))
  }

  function Check(cfg: Config, db: Db): Option<Problem> {
    if cfg.outlets == [] then Some(NoOutletsGiven)
    else if !OutletsExist(cfg, db.restaurants) then Some(UnknownOutlet)
    else if !TokensSafe(cfg, db.restaurants, db.stations) then Some(TokenAtRisk)
    else if !DefaultsExist(cfg, db.restaurants) then Some(NoSuchDefault)
    else None
  }

  /** The stations once the defaults of `codes` are written; a station keeps its token. */
  function StationsSet(
    cfg: Config, rows: seq<Restaurant>, stations: map<string, Station>, codes: set<string>): map<string, Station>
    requires forall code :: code in codes ==> TargetAt(cfg, rows, code).Some?
  {
    map code | code in stations.Keys + codes ::
      if code in codes then
        Station(Some(TargetAt(cfg, rows, code).value.id), if code in stations then stations[code].token else None)
      else stations[code]
  }

  function StationsAfter(cfg: Config, rows: seq<Restaurant>, stations: map<string, Station>): map<string, Station>
    requires DefaultsExist(cfg, rows)
  {
    StationsSet(cfg, rows, stations, cfg.defaults.Keys)
  }

  lemma NothingSet(cfg: Config, rows: seq<Restaurant>, stations: map<string, Station>)
    ensures StationsSet(cfg, rows, stations, {}) == stations
  {}

  lemma OneMoreSet(cfg: Config, rows: seq<Restaurant>, stations: map<string, Station>, codes: set<string>, code: string)
    requires code !in codes && forall c :: c in codes + {code} ==> TargetAt(cfg, rows, c).Some?
    ensures var now := StationsSet(cfg, rows, stations, codes);
            StationsSet(cfg, rows, stations, codes + {code}) ==
            now[code := Station(Some(TargetAt(cfg, rows, code).value.id), if code in now then now[code].token else None)]
  {}

  /** The state once the storefronts among the first `m` rows are done; no user is rescoped yet. */
  function ListedUpTo(cfg: Config, db: Db, m: nat): Db
    requires DefaultsExist(cfg, db.restaurants) && m <= |db.restaurants|
  {
    var all := db.restaurants;
    RowsAfter(cfg, all, db.(stations := StationsAfter(cfg, all, db.stations)), Storefronts(cfg, all[..m]))
  }

  /** A run that the checks let through. */
  function Migrated(cfg: Config, db: Db): Db
    requires DefaultsExist(cfg, db.restaurants)
  {
    var listed := ListedUpTo(cfg, db, |db.restaurants|);
    listed.(users := UsersAfter(cfg, db.restaurants, listed.orders, listed.users))
  }

  // --- what the storefront loop does to orders and rows -----------------------------------------

  predicate Moves(cfg: Config, all: seq<Restaurant>, r: Restaurant) {
    IsStorefront(cfg, r) && TargetOf(cfg, all, r).Some?
  }

  /** The kitchen behind a row: itself, unless it is a storefront with an outlet to cook for it. */
  function Kitchen(cfg: Config, all: seq<Restaurant>, r: Restaurant): nat {
    if Moves(cfg, all, r) then TargetOf(cfg, all, r).value.id else r.id
  }

  lemma MovingHasATarget(cfg: Config, all: seq<Restaurant>, r: Restaurant)
    ensures Moves(cfg, all, r) <==> IsStorefront(cfg, r) && TargetOf(cfg, all, r).Some?
  {}

  lemma KitchenNeverMoves(cfg: Config, all: seq<Restaurant>, r: Restaurant, q: Restaurant)
    requires UniqueIds(all) && r in all && q in all && Kitchen(cfg, all, r) == q.id
    ensures !Moves(cfg, all, q)
  {
    TargetCooks(cfg, all, Text.NormaliseStationCode(r.stationCode));
    if Moves(cfg, all, r) {
      SameRow(all, TargetOf(cfg, all, r).value, q);
    } else {
      SameRow(all, r, q);
    }
  }

  lemma {:induction false} OrderAfterRows(cfg: Config, all: seq<Restaurant>, db: Db, rows: seq<Restaurant>, o: nat)
    requires UniqueIds(all) && o in db.orders
    requires forall r :: r in rows ==> r in all && IsStorefront(cfg, r)
    ensures var after := RowsAfter(cfg, all, db, rows).orders[o];
            && after.source == db.orders[o].source
            && (forall r :: r in rows && r.id == db.orders[o].restaurant ==> after.restaurant == Kitchen(cfg, all, r))
            && ((forall r :: r in rows ==> r.id != db.orders[o].restaurant) ==> after == db.orders[o])
    decreases |rows|
  {
    if rows != [] {
      var init, row := rows[..|rows| - 1], rows[|rows| - 1];
      assert rows == init + [row];
      OrderAfterRows(cfg, all, db, init, o);
      forall r | r in init && r.id == db.orders[o].restaurant
        ensures RowsAfter(cfg, all, db, rows).orders[o].restaurant == Kitchen(cfg, all, r)
      {
        if Kitchen(cfg, all, r) == row.id {
          KitchenNeverMoves(cfg, all, r, row);
        }
      }
    }
  }

  lemma {:induction false} RowAfterRows(cfg: Config, all: seq<Restaurant>, db: Db, rows: seq<Restaurant>, i: nat)
    requires UniqueIds(all) && db.restaurants == all && i < |all|
    requires forall r :: r in rows ==> r in all && IsStorefront(cfg, r)
    ensures RowsAfter(cfg, all, db, rows).restaurants[i] ==
            if all[i] in rows && Moves(cfg, all, all[i]) then all[i].(active := false) else all[i]
    decreases |rows|
  {
    if rows != [] {
      var init, row := rows[..|rows| - 1], rows[|rows| - 1];
      assert rows == init + [row];
      RowAfterRows(cfg, all, db, init, i);
      if row.id == all[i].id {
        SameRow(all, row, all[i]);
      }
    }
  }

  /** An order follows its storefront to the kitchen behind it; no other order is touched. */
  lemma OrdersFollowTheKitchen(cfg: Config, db: Db, o: nat, r: Restaurant)
    requires UniqueIds(db.restaurants) && DefaultsExist(cfg, db.restaurants)
    requires o in db.orders && r in db.restaurants && db.orders[o].restaurant == r.id
    ensures Migrated(cfg, db).orders[o] == db.orders[o].(restaurant := Kitchen(cfg, db.restaurants, r))
  {
    var all := db.restaurants;
    assert all[..|all|] == all;
    OrderAfterRows(cfg, all, db.(stations := StationsAfter(cfg, all, db.stations)), Storefronts(cfg, all), o);
    forall q | q in Storefronts(cfg, all) && q.id == r.id ensures q == r { SameRow(all, q, r); }
  }

  /** Rows keep their places and their ids; only the storefronts that moved are retired. */
  lemma RowsOnlyRetire(cfg: Config, db: Db, m: nat, i: nat)
    requires UniqueIds(db.restaurants) && DefaultsExist(cfg, db.restaurants)
    requires m <= |db.restaurants| && i < |db.restaurants|
    ensures var all := db.restaurants;
            && |ListedUpTo(cfg, db, m).restaurants| == |all|
            && ListedUpTo(cfg, db, m).restaurants[i] ==
               if i < m && Moves(cfg, all, all[i]) then all[i].(active := false) else all[i]
  {
    var all := db.restaurants;
    var from := db.(stations := StationsAfter(cfg, all, db.stations));
    RowAfterRows(cfg, all, from, Storefronts(cfg, all[..m]), i);
    if i < m {
      assert all[..m][i] == all[i];
    } else {
      forall j | 0 <= j < m ensures all[..m][j] != all[i] { assert all[j].id != all[i].id; }
    }
  }

  // --- what the checks and the defaults are for -------------------------------------------------

  lemma TokensSafeExactly(cfg: Config, rows: seq<Restaurant>, stations: map<string, Station>)
    ensures TokensSafe(cfg, rows, stations) <==>
            forall r :: r in rows && r.active && (forall n :: n in cfg.outlets ==> Norm(n) != Norm(r.name)) && Given(r.token) ==>
              var code := Text.NormaliseStationCode(r.stationCode);
              code in stations && Given(stations[code].token)
  {
    hide Norm;
    forall r
      ensures IsStorefront(cfg, r) <==> r.active && forall n :: n in cfg.outlets ==> Norm(n) != Norm(r.name)
    {}
  }

  lemma DefaultsExistExactly(cfg: Config, rows: seq<Restaurant>)
    ensures DefaultsExist(cfg, rows) <==> forall code :: code in cfg.defaults ==> exists r :: r in rows && MayCook(cfg, r, code)
  {
    hide TargetAt, MayCook;
    forall code | code in cfg.defaults
      ensures TargetAt(cfg, rows, code).Some? <==> exists r :: r in rows && MayCook(cfg, r, code)
    {
      TargetIsTheFirst(cfg, rows, code);
    }
  }

  /** The checks let a run through exactly when kitchens are named, each of them is an active row, no
      storefront holds a token that its station lacks, and each default names a kitchen at its station. */
  lemma ChecksPassExactly(cfg: Config, db: Db)
    ensures Check(cfg, db).None? <==>
            && |cfg.outlets| > 0
            && (forall n :: n in cfg.outlets ==> exists r :: r in db.restaurants && r.active && Norm(r.name) == Norm(n))
            && (forall r :: r in db.restaurants && r.active && (forall n :: n in cfg.outlets ==> Norm(n) != Norm(r.name)) && Given(r.token) ==>
                  var code := Text.NormaliseStationCode(r.stationCode);
                  code in db.stations && Given(db.stations[code].token))
            && (forall code :: code in cfg.defaults ==> exists r :: r in db.restaurants && MayCook(cfg, r, code))
    ensures Check(cfg, db) == Some(NoOutletsGiven) ==> cfg.outlets == []
    ensures Check(cfg, db) == Some(UnknownOutlet) ==> !OutletsExist(cfg, db.restaurants)
    ensures Check(cfg, db) == Some(TokenAtRisk) ==> !TokensSafe(cfg, db.restaurants, db.stations)
    ensures Check(cfg, db) == Some(NoSuchDefault) ==> !DefaultsExist(cfg, db.restaurants)
  {
    hide Norm, MayCook, TokensSafe, DefaultsExist;
    TokensSafeExactly(cfg, db.restaurants, db.stations);
    DefaultsExistExactly(cfg, db.restaurants);
  }

  /** Each station named on the command line has its outlet by default: active, a real kitchen, there, and
      of the given name; its token and all other stations stay. */
  lemma DefaultsAreSet(cfg: Config, db: Db, code: string)
    requires DefaultsExist(cfg, db.restaurants)
    ensures var after := Migrated(cfg, db).stations;
            && (code in after <==> code in db.stations || code in cfg.defaults)
            && (code in cfg.defaults ==>
                  && (exists r :: r in db.restaurants && MayCook(cfg, r, code) && Norm(r.name) == cfg.defaults[code]
                                  && after[code].defaultRestaurant == Some(r.id))
                  && after[code].token == if code in db.stations then db.stations[code].token else None)
            && (code in db.stations && code !in cfg.defaults ==> after[code] == db.stations[code])
  {
    TargetIsTheFirst(cfg, db.restaurants, code);
  }

  /** No storefront that is retired takes its station's only print token with it. */
  lemma NoTokenIsStranded(cfg: Config, db: Db, r: Restaurant)
    requires UniqueIds(db.restaurants) && Check(cfg, db).None?
    requires r in db.restaurants && Moves(cfg, db.restaurants, r) && Given(r.token)
    ensures var code, after := Text.NormaliseStationCode(r.stationCode), Migrated(cfg, db).stations;
            code in after && Given(after[code].token)
  {
    DefaultsAreSet(cfg, db, Text.NormaliseStationCode(r.stationCode));
  }

  // --- the listings ----------------------------------------------------------------------------

  ghost predicate OneSource(orders: map<nat, Order>, row: nat, source: string) {
    && (exists o :: o in orders && orders[o].restaurant == row)
    && (forall o :: o in orders && orders[o].restaurant == row ==> orders[o].source == source)
  }

  /** The listing says what its storefront said and points at the kitchen behind it; the aggregator it
      names is the one that all the storefront's orders came from, and none when they differ. */
  ghost predicate ListingOf(cfg: Config, all: seq<Restaurant>, orders: map<nat, Order>, r: Restaurant, l: Listing) {
    && l.name == r.name && l.aliases == r.aliases && l.stationCode == Text.NormaliseStationCode(r.stationCode)
    && l.restaurant == Kitchen(cfg, all, r)
    && (forall source :: l.source == Some(source) <==> OneSource(orders, r.id, source))
  }

  lemma OnlySourceIsTheOne(orders: map<nat, Order>, row: nat, source: string)
    ensures OnlyElement(Sources(orders, row)) == Some(source) <==> OneSource(orders, row, source)
  {
    var sources := Sources(orders, row);
    if OneSource(orders, row, source) {
      assert sources == {source};
    }
    if OnlyElement(sources) == Some(source) {
      assert source in sources;
      forall o | o in orders && orders[o].restaurant == row ensures orders[o].source == source {
        assert orders[o].source in sources;
      }
    }
  }

  /** A storefront's orders stay its own until its turn comes. */
  lemma OrdersWaitTheirTurn(cfg: Config, all: seq<Restaurant>, db: Db, rows: seq<Restaurant>, r: Restaurant, source: string)
    requires UniqueIds(all) && r in all && IsStorefront(cfg, r)
    requires forall q :: q in rows ==> q in all && IsStorefront(cfg, q) && q.id != r.id
    ensures OneSource(RowsAfter(cfg, all, db, rows).orders, r.id, source) <==> OneSource(db.orders, r.id, source)
  {
    var after := RowsAfter(cfg, all, db, rows).orders;
    forall o | o in db.orders
      ensures after[o].source == db.orders[o].source && (after[o].restaurant == r.id <==> db.orders[o].restaurant == r.id)
    {
      OrderAfterRows(cfg, all, db, rows, o);
      if q :| q in rows && q.id == db.orders[o].restaurant {
        if Kitchen(cfg, all, q) == r.id { KitchenIsNoStorefront(cfg, all, q, r); }
      }
    }
  }

  lemma KitchenIsNoStorefront(cfg: Config, all: seq<Restaurant>, q: Restaurant, r: Restaurant)
    requires UniqueIds(all) && q in all && r in all && IsStorefront(cfg, r) && Kitchen(cfg, all, q) == r.id
    ensures q.id == r.id
  {
    TargetCooks(cfg, all, Text.NormaliseStationCode(q.stationCode));
    if Moves(cfg, all, q) {
      SameRow(all, TargetOf(cfg, all, q).value, r);
    }
  }

  /** What the storefront loop has made of the listings. */
  ghost predicate ListingsFit(
    cfg: Config, all: seq<Restaurant>, db: Db, rows: seq<Restaurant>, listings: seq<Listing>)
  {
    && db.listings <= listings
    && (forall r :: r in rows && Moves(cfg, all, r) ==> Listed(listings, r.name, Text.NormaliseStationCode(r.stationCode)))
    && (forall k :: |db.listings| <= k < |listings| ==> NewListingFits(cfg, all, db.orders, rows, listings, k))
  }

  /** A new listing comes from a storefront that moved, and has a name and station that no listing before it had. */
  ghost predicate NewListingFits(
    cfg: Config, all: seq<Restaurant>, orders: map<nat, Order>, rows: seq<Restaurant>, listings: seq<Listing>, k: int)
    requires 0 <= k < |listings|
  {
    && (exists r :: r in rows && Moves(cfg, all, r) && ListingOf(cfg, all, orders, r, listings[k]))
    && (forall j :: 0 <= j < k ==> listings[j].name != listings[k].name || listings[j].stationCode != listings[k].stationCode)
  }

  lemma ListingsFitOneMore(cfg: Config, all: seq<Restaurant>, db: Db, rows: seq<Restaurant>, before: Db, row: Restaurant)
    requires ListingsFit(cfg, all, db, rows, before.listings) && IsStorefront(cfg, row)
    requires forall source :: OneSource(before.orders, row.id, source) <==> OneSource(db.orders, row.id, source)
    ensures ListingsFit(cfg, all, db, rows + [row], RowAfter(cfg, all, before, row).listings)
  {
    hide OneSource, TargetOf, OnlyElement, Sources;
    var listings, code := before.listings, Text.NormaliseStationCode(row.stationCode);
    var after := RowAfter(cfg, all, before, row).listings;
    assert row in rows + [row];
    if TargetOf(cfg, all, row).Some? && !Listed(listings, row.name, code) {
      var l := after[|listings|];
      assert after == listings + [l];
      forall source ensures l.source == Some(source) <==> OneSource(db.orders, row.id, source) {
        OnlySourceIsTheOne(before.orders, row.id, source);
      }
      assert ListingOf(cfg, all, db.orders, row, l);
      forall j | 0 <= j < |listings| ensures listings[j].name != l.name || listings[j].stationCode != l.stationCode {
        assert listings[j] in listings;
      }
      assert l in after;
    }
    forall r | r in rows + [row] && Moves(cfg, all, r)
      ensures Listed(after, r.name, Text.NormaliseStationCode(r.stationCode))
    {
      if r in rows {
        var l :| l in listings && l.name == r.name && l.stationCode == Text.NormaliseStationCode(r.stationCode);
        assert l in after;
      }
    }
    forall k | |db.listings| <= k < |after| ensures NewListingFits(cfg, all, db.orders, rows + [row], after, k) {
      if k < |listings| {
        assert NewListingFits(cfg, all, db.orders, rows, listings, k);
        var r :| r in rows && Moves(cfg, all, r) && ListingOf(cfg, all, db.orders, r, listings[k]);
        assert r in rows + [row] && after[k] == listings[k];
      }
    }
  }

  lemma {:induction false} ListingsAfterRows(cfg: Config, all: seq<Restaurant>, db: Db, rows: seq<Restaurant>)
    requires UniqueIds(all) && UniqueIds(rows) && forall r :: r in rows ==> r in all && IsStorefront(cfg, r)
    ensures ListingsFit(cfg, all, db, rows, RowsAfter(cfg, all, db, rows).listings)
    decreases |rows|
  {
    hide ListingsFit, RowAfter, Moves;
    if rows == [] {
      NothingListed(cfg, all, db);
    } else {
      var init, row := rows[..|rows| - 1], rows[|rows| - 1];
      assert rows == init + [row];
      ListingsAfterRows(cfg, all, db, init);
      forall source
        ensures OneSource(RowsAfter(cfg, all, db, init).orders, row.id, source) <==> OneSource(db.orders, row.id, source)
      {
        OrdersWaitTheirTurn(cfg, all, db, init, row, source);
      }
      ListingsFitOneMore(cfg, all, db, init, RowsAfter(cfg, all, db, init), row);
    }
  }

  lemma NothingListed(cfg: Config, all: seq<Restaurant>, db: Db)
    ensures ListingsFit(cfg, all, db, [], db.listings)
  {}

  lemma {:induction false} StorefrontsStayUnique(cfg: Config, rows: seq<Restaurant>)
    requires UniqueIds(rows)
    ensures UniqueIds(Storefronts(cfg, rows))
    decreases |rows|
  {
    if rows != [] {
      StorefrontsStayUnique(cfg, rows[1..]);
      var rest := Storefronts(cfg, rows[1..]);
      forall j | 0 <= j < |rest| ensures rest[j].id != rows[0].id {
        assert rest[j] in rows[1..];
        var i :| 0 <= i < |rows[1..]| && rows[1..][i] == rest[j];
        assert rows[i + 1].id != rows[0].id;
      }
    }
  }

  /** The listings there were stay in front; every storefront that moved is listed; and each new listing
      is of one such storefront, points where its orders went, and is the only one of its name there. */
  lemma StorefrontsAreListed(cfg: Config, db: Db)
    requires UniqueIds(db.restaurants) && DefaultsExist(cfg, db.restaurants)
    ensures ListingsFit(cfg, db.restaurants, db, Storefronts(cfg, db.restaurants), Migrated(cfg, db).listings)
  {
    hide ListingsFit, Storefronts;
    var all := db.restaurants;
    var start := db.(stations := StationsAfter(cfg, all, db.stations));
    assert all[..|all|] == all;
    StorefrontsStayUnique(cfg, all);
    ListingsAfterRows(cfg, all, start, Storefronts(cfg, all));
    SameStart(cfg, all, db, start, Storefronts(cfg, all), Migrated(cfg, db).listings);
  }

  lemma SameStart(cfg: Config, all: seq<Restaurant>, db: Db, start: Db, rows: seq<Restaurant>, listings: seq<Listing>)
    requires start.listings == db.listings && start.orders == db.orders && ListingsFit(cfg, all, start, rows, listings)
    ensures ListingsFit(cfg, all, db, rows, listings)
  {}

  // --- scopes as sets --------------------------------------------------------------------------

  ghost predicate NoRepeats(ids: seq<nat>) { forall i, j :: 0 <= i < j < |ids| ==> ids[i] != ids[j] }

  ghost function Elements(ids: seq<nat>): set<nat> { set id | id in ids }

  lemma {:induction false} ElementsCount(ids: seq<nat>)
    ensures |Elements(ids)| <= |ids|
    ensures |Elements(ids)| == |ids| <==> NoRepeats(ids)
    decreases |ids|
  {
    if ids != [] {
      var init, last := ids[..|ids| - 1], ids[|ids| - 1];
      assert ids == init + [last];
      ElementsCount(init);
      if last in init {
        assert Elements(ids) == Elements(init);
        var i :| 0 <= i < |init| && init[i] == last;
        assert ids[i] == ids[|ids| - 1];
      } else {
        assert Elements(ids) == Elements(init) + {last};
        assert NoRepeats(init) ==> NoRepeats(ids);
        assert NoRepeats(ids) ==> NoRepeats(init) by {
          assert forall i :: 0 <= i < |init| ==> init[i] == ids[i];
        }
      }
    }
  }

  predicate Becomes(cfg: Config, all: seq<Restaurant>, orders: map<nat, Order>, ids: seq<nat>, x: nat) {
    exists id :: id in ids && NewId(cfg, all, orders, id) == Some(x)
  }

  lemma {:induction false} RescopedHolds(cfg: Config, all: seq<Restaurant>, orders: map<nat, Order>, ids: seq<nat>)
    ensures NoRepeats(Rescoped(cfg, all, orders, ids))
    ensures forall x :: x in Rescoped(cfg, all, orders, ids) <==> Becomes(cfg, all, orders, ids, x)
    decreases |ids|
  {
    if ids != [] {
      var init, last := ids[..|ids| - 1], ids[|ids| - 1];
      assert ids == init + [last];
      RescopedHolds(cfg, all, orders, init);
      forall x: nat
        ensures Becomes(cfg, all, orders, ids, x) <==>
                Becomes(cfg, all, orders, init, x) || NewId(cfg, all, orders, last) == Some(x)
      {
        if Becomes(cfg, all, orders, init, x) {
          var id :| id in init && NewId(cfg, all, orders, id) == Some(x);
          assert id in ids;
        }
        assert last in ids;
      }
    }
  }

  /** A scope left unwritten is the new scope in another order. */
  lemma ScopeHolds(cfg: Config, all: seq<Restaurant>, orders: map<nat, Order>, ids: seq<nat>)
    ensures NoRepeats(ScopeAfter(cfg, all, orders, ids))
    ensures forall x :: x in ScopeAfter(cfg, all, orders, ids) <==> Becomes(cfg, all, orders, ids, x)
  {
    RescopedHolds(cfg, all, orders, ids);
    var next := Rescoped(cfg, all, orders, ids);
    if SameScope(next, ids) {
      ElementsCount(next);
      ElementsCount(ids);
      assert Elements(next) <= Elements(ids);
      SubsetOfSameSize(Elements(next), Elements(ids));
      assert forall x :: x in ids <==> x in Elements(ids);
      assert forall x :: x in next <==> x in Elements(next);
    }
  }

  lemma SubsetOfSameSize(a: set<nat>, b: set<nat>)
    requires a <= b && |a| >= |b|
    ensures a == b
  {
    assert b == a + (b - a);
    assert |b| == |a| + |b - a|;
  }

  /** A scope without repeats whose ids all stay is not written. */
  lemma SettledScope(cfg: Config, all: seq<Restaurant>, orders: map<nat, Order>, ids: seq<nat>)
    requires NoRepeats(ids)
    requires forall id :: id in ids ==> NewId(cfg, all, orders, id) == Some(id)
    ensures ScopeAfter(cfg, all, orders, ids) == ids
  {
    RescopedHolds(cfg, all, orders, ids);
    var next := Rescoped(cfg, all, orders, ids);
    forall x: nat ensures x in next <==> x in ids {
      assert Becomes(cfg, all, orders, ids, x) <==> x in ids;
    }
    assert Elements(next) == Elements(ids);
    ElementsCount(next);
    ElementsCount(ids);
  }

  // --- what staff can see ----------------------------------------------------------------------

  /** Staff see the orders of the restaurants they are scoped to. */
  predicate Sees(db: Db, u: nat, o: nat) {
    u in db.users && o in db.orders && db.orders[o].restaurant in db.users[u]
  }

  lemma NewIdNamesARow(cfg: Config, all: seq<Restaurant>, orders: map<nat, Order>, id: nat)
    requires UniqueIds(all)
    ensures var next := NewId(cfg, all, orders, id);
            next.Some? ==> exists r :: r in all && r.id == next.value && !IsStorefront(cfg, r)
  {
    FindByIdNames(all, id);
    if FindById(all, id).Some? {
      TargetCooks(cfg, all, Text.NormaliseStationCode(FindById(all, id).value.stationCode));
    }
  }

  /** An order someone could see stays in sight exactly when its row exists and, if the row is a
      storefront, an outlet cooks for it. */
  lemma SightIsKeptExactly(cfg: Config, db: Db, u: nat, o: nat)
    requires UniqueIds(db.restaurants) && DefaultsExist(cfg, db.restaurants)
    requires Sees(db, u, o)
    ensures Sees(Migrated(cfg, db), u, o) <==>
            exists r :: r in db.restaurants && r.id == db.orders[o].restaurant
                        && (IsStorefront(cfg, r) ==> TargetOf(cfg, db.restaurants, r).Some?)
  {
    var all, rid := db.restaurants, db.orders[o].restaurant;
    var orders := Migrated(cfg, db).orders;
    ScopeHolds(cfg, all, orders, db.users[u]);
    FindByIdNames(all, rid);
    if FindById(all, rid).Some? {
      var r := FindById(all, rid).value;
      OrdersFollowTheKitchen(cfg, db, o, r);
      forall q | q in all && q.id == rid ensures q == r { SameRow(all, q, r); }
      if IsStorefront(cfg, r) && TargetOf(cfg, all, r).None? {
        if Becomes(cfg, all, orders, db.users[u], rid) {
          var id :| id in db.users[u] && NewId(cfg, all, orders, id) == Some(rid);
          NewIdNamesARow(cfg, all, orders, id);
          assert false;
        }
      } else {
        assert HasOrders(orders, Kitchen(cfg, all, r));
        assert NewId(cfg, all, orders, rid) == Some(Kitchen(cfg, all, r));
      }
    } else {
      assert orders[o] == db.orders[o] by {
        OrderAfterRows(cfg, all, db.(stations := StationsAfter(cfg, all, db.stations)), Storefronts(cfg, all[..|all|]), o);
      }
      if Becomes(cfg, all, orders, db.users[u], rid) {
        var id :| id in db.users[u] && NewId(cfg, all, orders, id) == Some(rid);
        NewIdNamesARow(cfg, all, orders, id);
        assert false;
      }
    }
  }

  /** With an outlet for every storefront and a row for every id, nobody loses sight of an order. */
  lemma NobodyLosesSight(cfg: Config, db: Db, u: nat, o: nat)
    requires UniqueIds(db.restaurants) && DefaultsExist(cfg, db.restaurants)
    requires forall r :: r in db.restaurants && IsStorefront(cfg, r) ==> TargetOf(cfg, db.restaurants, r).Some?
    requires forall v, id :: v in db.users && id in db.users[v] ==> FindById(db.restaurants, id).Some?
    requires Sees(db, u, o)
    ensures Sees(Migrated(cfg, db), u, o)
  {
    FindByIdNames(db.restaurants, db.orders[o].restaurant);
    SightIsKeptExactly(cfg, db, u, o);
  }

  // --- running it again ------------------------------------------------------------------------

  /** Rows after a stop leave every station's cook where it was. */
  lemma {:induction false} SameTarget(cfg: Config, all: seq<Restaurant>, later: seq<Restaurant>, code: string)
    requires |later| == |all|
    requires forall i :: 0 <= i < |all| ==>
               later[i] == all[i] || (!IsReal(cfg, all[i]) && later[i] == all[i].(active := false))
    ensures TargetAt(cfg, later, code) == TargetAt(cfg, all, code)
    decreases |all|
  {
    if all != [] {
      SameTarget(cfg, all[1..], later[1..], code);
    }
  }

  lemma {:induction false} StorefrontsOfParts(cfg: Config, a: seq<Restaurant>, b: seq<Restaurant>)
    ensures Storefronts(cfg, a + b) == Storefronts(cfg, a) + Storefronts(cfg, b)
    decreases |a|
  {
    if a == [] {
      assert a + b == b;
    } else {
      assert (a + b)[1..] == a[1..] + b;
      StorefrontsOfParts(cfg, a[1..], b);
    }
  }

  lemma {:induction false} RowsOfParts(cfg: Config, all: seq<Restaurant>, db: Db, xs: seq<Restaurant>, ys: seq<Restaurant>)
    ensures RowsAfter(cfg, all, db, xs + ys) == RowsAfter(cfg, all, RowsAfter(cfg, all, db, xs), ys)
    decreases |ys|
  {
    if ys == [] {
      assert xs + ys == xs;
    } else {
      var init, y := ys[..|ys| - 1], ys[|ys| - 1];
      assert (xs + ys)[..|xs + ys| - 1] == xs + init;
      RowsOfParts(cfg, all, db, xs, init);
    }
  }

  /** Rows with nowhere to go change nothing, and the other rows' targets are all that matters. */
  lemma {:induction false} RowsWithoutTargets(cfg: Config, all: seq<Restaurant>, db: Db, rows: seq<Restaurant>)
    requires forall r :: r in rows ==> TargetOf(cfg, all, r).None?
    ensures RowsAfter(cfg, all, db, rows) == db
    decreases |rows|
  {
    if rows != [] {
      RowsWithoutTargets(cfg, all, db, rows[..|rows| - 1]);
      assert rows[|rows| - 1] in rows;
    }
  }

  lemma {:induction false} RowsUnderSameTargets(
    cfg: Config, all: seq<Restaurant>, later: seq<Restaurant>, db: Db, rows: seq<Restaurant>)
    requires forall r :: r in rows ==> TargetOf(cfg, later, r) == TargetOf(cfg, all, r)
    ensures RowsAfter(cfg, later, db, rows) == RowsAfter(cfg, all, db, rows)
    decreases |rows|
  {
    if rows != [] {
      RowsUnderSameTargets(cfg, all, later, db, rows[..|rows| - 1]);
      assert rows[|rows| - 1] in rows;
    }
  }

  /** What a stopped run leaves: the same ids, the same cooks, the same stations to set. */
  lemma StoppedRun(cfg: Config, db: Db, m: nat)
    requires UniqueIds(db.restaurants) && DefaultsExist(cfg, db.restaurants) && m <= |db.restaurants|
    ensures var p := ListedUpTo(cfg, db, m);
            && UniqueIds(p.restaurants)
            && (forall code :: TargetAt(cfg, p.restaurants, code) == TargetAt(cfg, db.restaurants, code))
            && DefaultsExist(cfg, p.restaurants)
            && StationsAfter(cfg, p.restaurants, p.stations) == p.stations
            && p.stations == StationsAfter(cfg, db.restaurants, db.stations)
  {
    var all, p := db.restaurants, ListedUpTo(cfg, db, m);
    forall i | 0 <= i < |all|
      ensures p.restaurants[i] == if i < m && Moves(cfg, all, all[i]) then all[i].(active := false) else all[i]
    {
      RowsOnlyRetire(cfg, db, m, i);
    }
    forall code ensures TargetAt(cfg, p.restaurants, code) == TargetAt(cfg, all, code) {
      SameTarget(cfg, all, p.restaurants, code);
    }
  }

  lemma RowsPickUp(cfg: Config, all: seq<Restaurant>, later: seq<Restaurant>, db: Db,
                   xs: seq<Restaurant>, done: seq<Restaurant>, rest: seq<Restaurant>)
    requires forall r :: r in done ==> TargetOf(cfg, later, r).None?
    requires forall r :: r in rest ==> TargetOf(cfg, later, r) == TargetOf(cfg, all, r)
    ensures RowsAfter(cfg, later, RowsAfter(cfg, all, db, xs), done + rest) == RowsAfter(cfg, all, db, xs + rest)
  {
    var p := RowsAfter(cfg, all, db, xs);
    RowsOfParts(cfg, later, p, done, rest);
    RowsWithoutTargets(cfg, later, p, done);
    RowsUnderSameTargets(cfg, all, later, p, rest);
    RowsOfParts(cfg, all, db, xs, rest);
  }

  lemma StorefrontsLeft(cfg: Config, db: Db, m: nat)
    requires UniqueIds(db.restaurants) && DefaultsExist(cfg, db.restaurants) && m <= |db.restaurants|
    ensures var later := ListedUpTo(cfg, db, m).restaurants;
            && |later| == |db.restaurants|
            && later[m..] == db.restaurants[m..]
            && forall r :: r in Storefronts(cfg, later[..m]) ==> TargetOf(cfg, later, r).None?
  {
    var all, later := db.restaurants, ListedUpTo(cfg, db, m).restaurants;
    StoppedRun(cfg, db, m);
    forall i | 0 <= i < |all|
      ensures later[i] == if i < m && Moves(cfg, all, all[i]) then all[i].(active := false) else all[i]
    {
      RowsOnlyRetire(cfg, db, m, i);
    }
  }

  /** A run stopped among the storefronts and started again lists, repoints and retires just what
      one run would have. */
  lemma RerunCompletesTheListing(cfg: Config, db: Db, m: nat)
    requires UniqueIds(db.restaurants) && DefaultsExist(cfg, db.restaurants) && m <= |db.restaurants|
    ensures var p := ListedUpTo(cfg, db, m);
            && DefaultsExist(cfg, p.restaurants)
            && ListedUpTo(cfg, p, |p.restaurants|) == ListedUpTo(cfg, db, |db.restaurants|)
            && Migrated(cfg, p).orders == Migrated(cfg, db).orders
  {
    var all, p := db.restaurants, ListedUpTo(cfg, db, m);
    var later := p.restaurants;
    StoppedRun(cfg, db, m);
    StorefrontsLeft(cfg, db, m);
    assert all[..|all|] == all == all[..m] + all[m..];
    assert later[..|later|] == later == later[..m] + later[m..];
    StorefrontsOfParts(cfg, all[..m], all[m..]);
    StorefrontsOfParts(cfg, later[..m], later[m..]);
    RowsPickUp(cfg, all, later, db.(stations := p.stations),
               Storefronts(cfg, all[..m]), Storefronts(cfg, later[..m]), Storefronts(cfg, all[m..]));
  }

  /** The ids of the storefronts a run stopped at row `m` has retired. */
  predicate RetiredBy(cfg: Config, all: seq<Restaurant>, m: nat, id: nat) {
    exists i :: 0 <= i < m && i < |all| && all[i].id == id && Moves(cfg, all, all[i])
  }

  lemma FindAt(rows: seq<Restaurant>, i: nat)
    requires UniqueIds(rows) && i < |rows|
    ensures FindById(rows, rows[i].id) == Some(rows[i])
  {
    assert rows[i] in rows;
    FindByIdFinds(rows, rows[i]);
  }

  /** Once the orders have moved, a retired storefront's id is dead, and all other ids fare as before. */
  lemma NewIdOnRerun(cfg: Config, db: Db, m: nat, id: nat)
    requires UniqueIds(db.restaurants) && DefaultsExist(cfg, db.restaurants) && m <= |db.restaurants|
    ensures var all, orders := db.restaurants, Migrated(cfg, db).orders;
            NewId(cfg, ListedUpTo(cfg, db, m).restaurants, orders, id) ==
            if RetiredBy(cfg, all, m, id) then None else NewId(cfg, all, orders, id)
  {
    var all, later, orders := db.restaurants, ListedUpTo(cfg, db, m).restaurants, Migrated(cfg, db).orders;
    StoppedRun(cfg, db, m);
    FindByIdNames(all, id);
    FindByIdNames(later, id);
    if i: nat :| i < |all| && all[i].id == id {
      RowsOnlyRetire(cfg, db, m, i);
      FindAt(all, i);
      FindAt(later, i);
      if i < m && Moves(cfg, all, all[i]) {
        RetiredHoldNoOrders(cfg, db, all[i]);
        assert RetiredBy(cfg, all, m, id);
      } else if RetiredBy(cfg, all, m, id) {
        assert false;
      }
    } else {
      forall i: nat | i < |all| ensures later[i].id != id { RowsOnlyRetire(cfg, db, m, i); }
      assert FindById(later, id).None?;
    }
  }

  /** After a run no order points at a storefront that moved. */
  lemma RetiredHoldNoOrders(cfg: Config, db: Db, r: Restaurant)
    requires UniqueIds(db.restaurants) && DefaultsExist(cfg, db.restaurants)
    requires r in db.restaurants && Moves(cfg, db.restaurants, r)
    ensures !HasOrders(Migrated(cfg, db).orders, r.id)
  {
    var all, orders := db.restaurants, Migrated(cfg, db).orders;
    forall o | o in orders ensures orders[o].restaurant != r.id {
      var rid := db.orders[o].restaurant;
      FindByIdNames(all, rid);
      if FindById(all, rid).Some? {
        var q := FindById(all, rid).value;
        OrdersFollowTheKitchen(cfg, db, o, q);
        if Kitchen(cfg, all, q) == r.id { KitchenNeverMoves(cfg, all, q, r); }
      } else {
        assert all[..|all|] == all;
        OrderAfterRows(cfg, all, db.(stations := StationsAfter(cfg, all, db.stations)), Storefronts(cfg, all), o);
      }
    }
  }

  /** Whoever is scoped to a row that still stands and has the order's kitchen behind it. */
  predicate ScopeReaches(cfg: Config, db: Db, m: nat, u: nat, r: Restaurant) {
    u in db.users &&
    exists q :: q in db.restaurants && q.id in db.users[u] && !RetiredBy(cfg, db.restaurants, m, q.id)
                && Kitchen(cfg, db.restaurants, q) == Kitchen(cfg, db.restaurants, r)
                && (IsStorefront(cfg, q) ==> Moves(cfg, db.restaurants, q))
  }

  lemma ReachesAsNewId(cfg: Config, db: Db, o: nat, r: Restaurant, q: Restaurant)
    requires UniqueIds(db.restaurants) && DefaultsExist(cfg, db.restaurants)
    requires o in db.orders && r in db.restaurants && db.orders[o].restaurant == r.id
    requires q in db.restaurants
    ensures var all := db.restaurants;
            NewId(cfg, all, Migrated(cfg, db).orders, q.id) == Some(Kitchen(cfg, all, r)) <==>
            Kitchen(cfg, all, q) == Kitchen(cfg, all, r) && (IsStorefront(cfg, q) ==> Moves(cfg, all, q))
  {
    var all, orders := db.restaurants, Migrated(cfg, db).orders;
    FindByIdFinds(all, q);
    OrdersFollowTheKitchen(cfg, db, o, r);
    assert o in orders;
    assert HasOrders(orders, Kitchen(cfg, all, r));
  }

  /** Whoever runs it again after a stop at row `m`, someone sees an order exactly when their scope
      still held a row with the order's kitchen behind it. A first run is the one stopped at row 0. */
  lemma SightAfterRerunExactly(cfg: Config, db: Db, m: nat, u: nat, o: nat, r: Restaurant)
    requires UniqueIds(db.restaurants) && DefaultsExist(cfg, db.restaurants) && m <= |db.restaurants|
    requires o in db.orders && r in db.restaurants && db.orders[o].restaurant == r.id
    ensures var p := ListedUpTo(cfg, db, m);
            && DefaultsExist(cfg, p.restaurants)
            && (Sees(Migrated(cfg, p), u, o) <==> ScopeReaches(cfg, db, m, u, r))
  {
    var all, p := db.restaurants, ListedUpTo(cfg, db, m);
    var orders := Migrated(cfg, db).orders;
    StoppedRun(cfg, db, m);
    RerunCompletesTheListing(cfg, db, m);
    OrdersFollowTheKitchen(cfg, db, o, r);
    var home := Kitchen(cfg, all, r);
    if u in db.users {
      ScopeHolds(cfg, p.restaurants, orders, db.users[u]);
      assert Sees(Migrated(cfg, p), u, o) <==> Becomes(cfg, p.restaurants, orders, db.users[u], home);
      if Becomes(cfg, p.restaurants, orders, db.users[u], home) {
        var id :| id in db.users[u] && NewId(cfg, p.restaurants, orders, id) == Some(home);
        NewIdOnRerun(cfg, db, m, id);
        FindByIdNames(all, id);
        ReachesAsNewId(cfg, db, o, r, FindById(all, id).value);
      }
      if ScopeReaches(cfg, db, m, u, r) {
        var q :| q in all && q.id in db.users[u] && !RetiredBy(cfg, all, m, q.id)
                 && Kitchen(cfg, all, q) == home && (IsStorefront(cfg, q) ==> Moves(cfg, all, q));
        NewIdOnRerun(cfg, db, m, q.id);
        ReachesAsNewId(cfg, db, o, r, q);
      }
    }
  }

  /** So a run that stops between the storefronts and the staff is not safe to start again: someone
      scoped to a storefront that was already retired loses its orders for good. */
  lemma StoppedRunLosesSight(cfg: Config, db: Db, m: nat, u: nat, o: nat, r: Restaurant)
    requires UniqueIds(db.restaurants) && DefaultsExist(cfg, db.restaurants) && m <= |db.restaurants|
    requires r in db.restaurants && RetiredBy(cfg, db.restaurants, m, r.id)
    requires Sees(db, u, o) && db.orders[o].restaurant == r.id && db.users[u] == [r.id]
    ensures Sees(Migrated(cfg, db), u, o)
    ensures var p := ListedUpTo(cfg, db, m);
            && DefaultsExist(cfg, p.restaurants)
            && Migrated(cfg, p).orders == Migrated(cfg, db).orders
            && !Sees(Migrated(cfg, p), u, o)
  {
    hide ListedUpTo, Migrated, Moves, TargetOf, DefaultsExist, Kitchen;
    var i :| 0 <= i < m && i < |db.restaurants| && db.restaurants[i].id == r.id && Moves(cfg, db.restaurants, db.restaurants[i]);
    SameRow(db.restaurants, db.restaurants[i], r);
    assert IsStorefront(cfg, r) && TargetOf(cfg, db.restaurants, r).Some? by { MovingHasATarget(cfg, db.restaurants, r); }
    SightIsKeptExactly(cfg, db, u, o);
    SightAfterRerunExactly(cfg, db, m, u, o, r);
    RerunCompletesTheListing(cfg, db, m);
  }

  lemma {:induction false} RowsIgnoreUsers(
    cfg: Config, all: seq<Restaurant>, db: Db, rows: seq<Restaurant>, users: map<nat, seq<nat>>)
    ensures RowsAfter(cfg, all, db.(users := users), rows) == RowsAfter(cfg, all, db, rows).(users := users)
    decreases |rows|
  {
    if rows != [] { RowsIgnoreUsers(cfg, all, db, rows[..|rows| - 1], users); }
  }

  lemma NewIdSettles(cfg: Config, db: Db, id: nat, x: nat)
    requires UniqueIds(db.restaurants) && DefaultsExist(cfg, db.restaurants)
    requires NewId(cfg, db.restaurants, Migrated(cfg, db).orders, id) == Some(x)
    ensures NewId(cfg, Migrated(cfg, db).restaurants, Migrated(cfg, db).orders, x) == Some(x)
  {
    var all, orders := db.restaurants, Migrated(cfg, db).orders;
    NewIdOnRerun(cfg, db, |all|, x);
    NewIdNamesARow(cfg, all, orders, id);
    var q :| q in all && q.id == x && !IsStorefront(cfg, q);
    FindByIdFinds(all, q);
    FindByIdNames(all, id);
    TargetCooks(cfg, all, Text.NormaliseStationCode(FindById(all, id).value.stationCode));
    if FindById(all, id).value.id != x {
      SameRow(all, q, TargetOf(cfg, all, FindById(all, id).value).value);
    }
    assert NewId(cfg, all, orders, x) == Some(x);
    forall i | 0 <= i < |all| && all[i].id == x ensures all[i] == q { SameRow(all, all[i], q); }
  }

  /** A scope that was rescoped once the storefronts were retired is settled. */
  lemma RescopedIsSettled(cfg: Config, db: Db, u: nat)
    requires UniqueIds(db.restaurants) && DefaultsExist(cfg, db.restaurants) && u in db.users
    ensures var once := Migrated(cfg, db);
            ScopeAfter(cfg, once.restaurants, once.orders, once.users[u]) == once.users[u]
  {
    var all, once := db.restaurants, Migrated(cfg, db);
    ScopeHolds(cfg, all, once.orders, db.users[u]);
    forall x | x in once.users[u] ensures NewId(cfg, once.restaurants, once.orders, x) == Some(x) {
      var id :| id in db.users[u] && NewId(cfg, all, once.orders, id) == Some(x);
      NewIdSettles(cfg, db, id, x);
    }
    SettledScope(cfg, once.restaurants, once.orders, once.users[u]);
  }

  /** A run stopped among the staff and started again keeps the users it had rescoped; the others
      fare as after a stop just before the staff. */
  lemma StopAmongStaff(cfg: Config, db: Db, done: set<nat>, u: nat)
    requires UniqueIds(db.restaurants) && DefaultsExist(cfg, db.restaurants) && u in db.users
    ensures var p := ListedUpTo(cfg, db, |db.restaurants|);
            var q := p.(users := UsersOf(cfg, db.restaurants, p.orders, db.users, done));
            && DefaultsExist(cfg, p.restaurants)
            && Migrated(cfg, q).(users := db.users) == Migrated(cfg, db).(users := db.users)
            && Migrated(cfg, q).users[u] == (if u in done then Migrated(cfg, db) else Migrated(cfg, p)).users[u]
  {
    var n := |db.restaurants|;
    var p := ListedUpTo(cfg, db, n);
    StoppedRun(cfg, db, n);
    RerunCompletesTheListing(cfg, db, n);
    RowsIgnoreUsers(cfg, p.restaurants, p, Storefronts(cfg, p.restaurants[..n]),
                    UsersOf(cfg, db.restaurants, p.orders, db.users, done));
    RescopedIsSettled(cfg, db, u);
  }

  /** A finished run can be repeated: the checks pass again and nothing changes. */
  lemma SecondRunChangesNothing(cfg: Config, db: Db)
    requires UniqueIds(db.restaurants) && Check(cfg, db).None?
    ensures var once := Migrated(cfg, db); Check(cfg, once).None? && Migrated(cfg, once) == once
  {
    var n := |db.restaurants|;
    var p, once := ListedUpTo(cfg, db, n), Migrated(cfg, db);
    StoppedRun(cfg, db, n);
    RerunCompletesTheListing(cfg, db, n);
    RowsIgnoreUsers(cfg, p.restaurants, p, Storefronts(cfg, p.restaurants[..n]), once.users);
    forall u | u in once.users
      ensures ScopeAfter(cfg, once.restaurants, once.orders, once.users[u]) == once.users[u]
    {
      RescopedIsSettled(cfg, db, u);
    }
    StoppedRunPassesChecks(cfg, db, n);
  }

  /** Wherever a run has stopped among the storefronts, the checks let it start again. */
  lemma StoppedRunPassesChecks(cfg: Config, db: Db, m: nat)
    requires UniqueIds(db.restaurants) && Check(cfg, db).None? && m <= |db.restaurants|
    ensures Check(cfg, ListedUpTo(cfg, db, m)).None?
  {
    var all, p := db.restaurants, ListedUpTo(cfg, db, m);
    StoppedRun(cfg, db, m);
    forall i | 0 <= i < |all|
      ensures p.restaurants[i] == if i < m && Moves(cfg, all, all[i]) then all[i].(active := false) else all[i]
    {
      RowsOnlyRetire(cfg, db, m, i);
    }
    forall n | n in cfg.outlets ensures exists r :: r in p.restaurants && r.active && Norm(r.name) == Norm(n) {
      var i :| 0 <= i < |all| && all[i].active && Norm(all[i].name) == Norm(n);
      assert IsReal(cfg, all[i]);
      assert p.restaurants[i] in p.restaurants;
    }
    forall r | r in p.restaurants && IsStorefront(cfg, r) && Given(r.token)
      ensures StationHasToken(p.stations, Text.NormaliseStationCode(r.stationCode))
    {
      assert r in all;
    }
  }

  /** A run stopped between the three writes of one row picks that row up where it was. */
  lemma HalfDoneRowResumes(cfg: Config, all: seq<Restaurant>, db: Db, row: Restaurant)
    requires UniqueIds(all) && row in all && IsStorefront(cfg, row)
    ensures var done := RowAfter(cfg, all, db, row);
            && RowAfter(cfg, all, db.(listings := done.listings), row) == done
            && RowAfter(cfg, all, db.(listings := done.listings, orders := done.orders), row) == done
  {
    if TargetOf(cfg, all, row).Some? {
      var target := TargetOf(cfg, all, row).value;
      TargetCooks(cfg, all, Text.NormaliseStationCode(row.stationCode));
      assert target.id != row.id by { if target.id == row.id { SameRow(all, target, row); } }
      var done := RowAfter(cfg, all, db, row);
      var listing := done.listings[|done.listings| - 1];
      assert !Listed(db.listings, row.name, Text.NormaliseStationCode(row.stationCode)) ==> listing in done.listings;
      assert Repointed(done.orders, row.id, target.id) == done.orders;
    }
  }

  // --- the database ----------------------------------------------------------------------------

  class Database {
    var restaurants: seq<Restaurant>
    var orders: map<nat, Order>
    var listings: seq<Listing>
    var stations: map<string, Station>
    var users: map<nat, seq<nat>>

    function View(): Db
      reads this
    {
      Db(restaurants, orders, listings, stations, users)
    }

    /** The first default that names no outlet at its station stops the run; those before it stay written. */
    method SetDefaults(cfg: Config, apply: bool) returns (done: set<string>)
      modifies this`stations
      ensures done <= cfg.defaults.Keys && forall code :: code in done ==> TargetAt(cfg, restaurants, code).Some?
      ensures DefaultsExist(cfg, restaurants) <==> done == cfg.defaults.Keys
      ensures stations == if apply then StationsSet(cfg, restaurants, old(stations), done) else old(stations)
    {
      hide TargetAt, StationsSet;
      var todo := cfg.defaults.Keys;
      done := {};
      NothingSet(cfg, restaurants, stations);
      while todo != {}
        invariant todo !! done && todo + done == cfg.defaults.Keys
        invariant forall code :: code in done ==> TargetAt(cfg, restaurants, code).Some?
        invariant stations == if apply then StationsSet(cfg, restaurants, old(stations), done) else old(stations)
        decreases |todo|
      {
        var code :| code in todo;
        var target := TargetAt(cfg, restaurants, code);
        if target.None? { return; }
        if apply {
          OneMoreSet(cfg, restaurants, old(stations), done, code);
          stations := stations[code := Station(Some(target.value.id), if code in stations then stations[code].token else None)];
        }
        todo, done := todo - {code}, done + {code};
      }
    }

    method MoveStorefronts(cfg: Config, all: seq<Restaurant>, apply: bool)
      modifies this`orders, this`listings, this`restaurants
      ensures View() == if apply then RowsAfter(cfg, all, old(View()), Storefronts(cfg, all)) else old(View())
    {
      hide TargetAt, Storefronts, OnlyElement, Sources, Repointed, Retired, Listed, RowsAfter;
      var storefronts := Storefronts(cfg, all);
      NoRows(cfg, all, View());
      for n := 0 to |storefronts|
        invariant View() == if apply then RowsAfter(cfg, all, old(View()), storefronts[..n]) else old(View())
      {
        var row := storefronts[n];
        assert storefronts[..n + 1] == storefronts[..n] + [row];
        OneMoreRow(cfg, all, old(View()), storefronts[..n], row);
        var code := Text.NormaliseStationCode(row.stationCode);
        var target := TargetAt(cfg, all, code);
        if target.Some? && apply {
          var source := OnlyElement(Sources(orders, row.id));
          var held := exists o :: o in orders && orders[o].restaurant == row.id;
          if !Listed(listings, row.name, code) {
            listings := listings + [Listing(row.name, row.aliases, source, code, target.value.id)];
          }
          if !held { NoneToRepoint(orders, row.id, target.value.id); }
          if held {
            orders := Repointed(orders, row.id, target.value.id);
          }
          restaurants := Retired(restaurants, row.id);
        }
      }
      assert storefronts[..|storefronts|] == storefronts;
    }

    method Rescope(cfg: Config, all: seq<Restaurant>, storefrontIds: set<nat>, deadIds: set<nat>, before: seq<nat>)
      returns (after: seq<nat>)
      requires UniqueIds(all)
      requires storefrontIds == StorefrontIds(cfg, all) && deadIds == DeadIds(cfg, all, orders)
      ensures after == Rescoped(cfg, all, orders, before)
    {
      after := [];
      for n := 0 to |before|
        invariant after == Rescoped(cfg, all, orders, before[..n])
      {
        assert before[..n + 1][..n] == before[..n];
        var id := before[n];
        IdsName(cfg, all, orders, id);
        var kept := None;
        if id !in storefrontIds {
          if FindById(all, id).Some? && id !in deadIds { kept := Some(id); }
        } else {
          var target := TargetAt(cfg, all, Text.NormaliseStationCode(FindById(all, id).value.stationCode));
          if target.Some? { kept := Some(target.value.id); }
        }
        if kept.Some? && kept.value !in after { after := after + [kept.value]; }
      }
      assert before[..|before|] == before;
    }

    method RescopeUser(
      cfg: Config, all: seq<Restaurant>, storefrontIds: set<nat>, deadIds: set<nat>, u: nat, apply: bool)
      requires UniqueIds(all) && u in users
      requires storefrontIds == StorefrontIds(cfg, all) && deadIds == DeadIds(cfg, all, orders)
      modifies this`users
      ensures users == if apply then old(users)[u := ScopeAfter(cfg, all, orders, old(users)[u])] else old(users)
    {
      var before := users[u];
      var next := Rescope(cfg, all, storefrontIds, deadIds, before);
      if !SameScope(next, before) && apply {
        users := users[u := next];
      }
    }

    method RescopeStaff(cfg: Config, all: seq<Restaurant>, apply: bool)
      requires UniqueIds(all)
      modifies this`users
      ensures users == if apply then UsersAfter(cfg, all, orders, old(users)) else old(users)
    {
      hide StorefrontIds, DeadIds, ScopeAfter, UsersOf, UsersAfter, Scoped, UniqueIds;
      var storefrontIds := StorefrontIds(cfg, all);
      var deadIds := DeadIds(cfg, all, orders);
      var todo := Scoped(users);
      ghost var was, staff, done := users, todo, {};
      AllRescoped(cfg, all, orders, users);
      while todo != {}
        invariant todo !! done && todo + done == staff
        invariant users.Keys == was.Keys && staff <= was.Keys
        invariant users == if apply then UsersOf(cfg, all, orders, was, done) else was
        decreases |todo|
      {
        var u :| u in todo;
        OneMoreRescoped(cfg, all, orders, was, done, u);
        RescopeUser(cfg, all, storefrontIds, deadIds, u, apply);
        todo, done := todo - {u}, done + {u};
      }
    }

    /** Runs it. Without `apply`, or when a check refuses, the database stays as it was, but for the
        station defaults written before the one that was refused. */
    method Migrate(cfg: Config, apply: bool) returns (problem: Option<Problem>)
      requires UniqueIds(restaurants)
      modifies this
      ensures problem == Check(cfg, old(View()))
      ensures problem.None? && apply ==> View() == Migrated(cfg, old(View()))
      ensures !apply || (problem.Some? && problem != Some(NoSuchDefault)) ==> View() == old(View())
      ensures problem == Some(NoSuchDefault) && apply ==>
                exists codes :: codes < cfg.defaults.Keys
                  && (forall code :: code in codes ==> TargetAt(cfg, old(restaurants), code).Some?)
                  && View() == old(View()).(stations := StationsSet(cfg, old(restaurants), old(stations), codes))
    {
      if cfg.outlets == [] { return Some(NoOutletsGiven); }
      var all := restaurants;
      if !OutletsExist(cfg, all) { return Some(UnknownOutlet); }
      if !TokensSafe(cfg, all, stations) { return Some(TokenAtRisk); }
      var written := SetDefaults(cfg, apply);
      if written != cfg.defaults.Keys { return Some(NoSuchDefault); }
      MoveStorefronts(cfg, all, apply);
      assert all[..|all|] == all;
      RescopeStaff(cfg, all, apply);
      problem := None;
    }
  }

  lemma IdsName(cfg: Config, all: seq<Restaurant>, orders: map<nat, Order>, id: nat)
    requires UniqueIds(all)
    ensures id in StorefrontIds(cfg, all) <==> FindById(all, id).Some? && IsStorefront(cfg, FindById(all, id).value)
    ensures id in DeadIds(cfg, all, orders) <==> FindById(all, id).Some? && IsDead(cfg, orders, FindById(all, id).value)
  {
    FindByIdNames(all, id);
    if FindById(all, id).Some? {
      forall r | r in all && r.id == id ensures r == FindById(all, id).value {
        SameRow(all, r, FindById(all, id).value);
      }
    }
  }
}
