/** The start-up top-up of the `users` table: when it holds fewer than twenty rows,
    one insert per missing row is queued with fake data.

    The fake data (faker) and `Math.random()` are inputs: one `Draw` per insert.
    With `PRAGMA foreign_keys = ON`, an insert whose `city_id` names no city is
    refused; `engineOk[i]` stands for every other reason the engine may refuse insert
    `i`. The inserts are run without a callback, so the driver reports a refusal as an
    `'error'` event nobody listens to, which ends the process: the inserts before the
    first refusal stay, the rest never run. */
module Seed {
  import opened Values
  import opened Store

  /** The number of users the top-up fills the table to. */
  const UserFloor: nat := 20

  /** The random data for one seeded user: faker's name, phone, e-mail, past date
      and balance, and the value `Math.random()` returned for the city. */
  datatype Draw = Draw(name: string, random: real, phone: string, email: string, date: string, balance: int)

  /** What the libraries promise about a draw: `Math.random()` lies in [0, 1) and
      `faker.number.int({ min: 1000, max: 50000 })` in [1000, 50000]. */
  predicate DrawInRange(d: Draw)
  {
    0.0 <= d.random < 1.0 && 1000 <= d.balance <= 50000
  }

  /** `Math.floor(Math.random() * 5) + 1`. */
  function CityIdOf(random: real): (id: int)
    requires 0.0 <= random < 1.0
    ensures 1 <= id <= 5
  {
    (random * 5.0).Floor + 1
  }

  /** The row the prepared insert stores for one draw (`city` is not among its
      columns): text fields from faker, a whole city id in 1..5 and a whole balance
      in 1000..50000. */
  function SeedRow(d: Draw): (u: User)
    requires DrawInRange(d)
    ensures IsSeedRow(u)
  {
    var c := CityIdOf(d.random);
    assert (c as real).Floor == c;
    assert (d.balance as real).Floor == d.balance;
    User(Str(d.name), Num(c as real), Null, Str(d.phone), Str(d.email), Str(d.date), Num(d.balance as real))
  }

  predicate IsWhole(x: real)
  {
    x.Floor as real == x
  }

  /** What every seeded row looks like. */
  predicate IsSeedRow(u: User)
  {
    && u.name.Str? && u.phone.Str? && u.email.Str? && u.registrationDate.Str?
    && u.city == Null
    && u.cityId.Num? && IsWhole(u.cityId.x) && 1.0 <= u.cityId.x <= 5.0
    && u.balance.Num? && IsWhole(u.balance.x) && 1000.0 <= u.balance.x <= 50000.0
  }

  /** How many inserts the loop queues for a table of `existing` rows: `20 - existing`
      when that is positive, otherwise none. */
  function ToAdd(existing: nat): nat
  {
    if existing < UserFloor then UserFloor - existing else 0
  }

  /** Whether the engine accepts the seed insert of `d`: its `city_id` must name a
      city, and nothing else may stand in the way. */
  predicate Accepts(cities: map<int, City>, d: Draw, engineOk: bool)
    requires DrawInRange(d)
  {
    engineOk && CityIdOf(d.random) in cities
  }

  /** The top-up. Existing rows are never touched. The inserts are accepted in order
      up to the first one the engine refuses; each accepted one adds a seed-shaped row
      under a fresh id, and a refusal ends the process (`aborted`). When every insert
      is accepted the table ends with max(existing, 20) rows; when no city with an id
      in 1..5 exists, as in the database server.js creates, the first insert is
      refused and no row is added. */
  method TopUp(store: UserStore, countOk: bool, draws: seq<Draw>, engineOk: seq<bool>)
    returns (added: nat, aborted: bool)
    requires store.Valid()
    requires |draws| >= UserFloor && |engineOk| >= UserFloor
    requires forall i :: 0 <= i < |draws| ==> DrawInRange(draws[i])
    modifies store
    ensures store.Valid()
    ensures !countOk ==> added == 0 && !aborted
    ensures added <= ToAdd(|old(store.users)|)
    ensures |store.users| == |old(store.users)| + added
    ensures added == 0 ==> store.users == old(store.users)
    ensures forall j :: 0 <= j < added ==> Accepts(store.cities, draws[j], engineOk[j])
    ensures aborted <==> countOk && added < ToAdd(|old(store.users)|)
    ensures aborted ==> !Accepts(store.cities, draws[added], engineOk[added])
    ensures countOk && (forall j :: 0 <= j < ToAdd(|old(store.users)|) ==> Accepts(store.cities, draws[j], engineOk[j])) ==>
              |store.users| == (if |old(store.users)| < UserFloor then UserFloor else |old(store.users)|)
    ensures countOk && |old(store.users)| < UserFloor && (forall c :: 1 <= c <= 5 ==> c !in store.cities) ==>
              aborted && store.users == old(store.users)
    ensures forall k :: k in old(store.users) ==> k in store.users && store.users[k] == old(store.users)[k]
    ensures forall k :: k in store.users && k !in old(store.users) ==> IsSeedRow(store.users[k])
    ensures store.orders == old(store.orders) && store.cities == old(store.cities)
    ensures store.citySequence == old(store.citySequence)
  {
    added, aborted := 0, false;
    if !countOk {
      return;
    }
    var n := ToAdd(|store.users|);
    while added < n && !aborted
      invariant 0 <= added <= n
      invariant store.Valid()
      invariant aborted ==> added < n && !Accepts(store.cities, draws[added], engineOk[added])
      invariant forall j :: 0 <= j < added ==> Accepts(store.cities, draws[j], engineOk[j])
      invariant |store.users| == |old(store.users)| + added
      invariant added == 0 ==> store.users == old(store.users)
      invariant forall k :: k in old(store.users) ==> k in store.users && store.users[k] == old(store.users)[k]
      invariant forall k :: k in store.users && k !in old(store.users) ==> IsSeedRow(store.users[k])
      invariant store.orders == old(store.orders) && store.cities == old(store.cities)
      invariant store.citySequence == old(store.citySequence)
      decreases n - added, !aborted
    {
      var r := store.InsertUser(SeedRow(draws[added]), Accepts(store.cities, draws[added], engineOk[added]));
      if r.Failed? {
        aborted := true;
      } else {
        added := added + 1;
      }
    }
    if 0 < n {
      ghost var firstCity := CityIdOf(draws[0].random);
    }
  }
}
