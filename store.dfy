/** The SQLite database behind the handlers, as three keyed tables.

    Each statement a handler runs either takes effect as stated or fails with a
    store error (answered with 500). Whether the engine accepts a statement (disk,
    locks, constraints) is an input, `engineOk`. One failure is decided by the model
    itself: a statement naming the column `city` fails when the `users` table has no
    such column, which is the case for a database created by the schema in server.js. */
module Store {
  import opened Values

  /** A row of `users`. `cityId` is the `city_id` column; `city` is the column the
      create, replace and patch statements name, present only in some schemas. */
  datatype User = User(
    name: JsValue,
    cityId: JsValue,
    city: JsValue,
    phone: JsValue,
    email: JsValue,
    registrationDate: JsValue,
    balance: JsValue)

  /** A row of `cities`. */
  datatype City = City(name: JsValue, country: JsValue)

  /** A row of `orders`. */
  datatype Order = Order(
    id: int,
    userId: int,
    item: JsValue,
    amount: JsValue,
    date: JsValue,
    paymentMethod: JsValue,
    status: JsValue)

  /** The columns `GET /users/:id/orders` selects: every column but `user_id`. */
  datatype OrderRow = OrderRow(
    id: int,
    item: JsValue,
    amount: JsValue,
    date: JsValue,
    paymentMethod: JsValue,
    status: JsValue)

  /** The columns `GET /users` selects: the rowid and every column but `city_id`. */
  datatype UserRow = UserRow(
    id: int,
    name: JsValue,
    city: JsValue,
    phone: JsValue,
    email: JsValue,
    registrationDate: JsValue,
    balance: JsValue)

  datatype StoreError = NoSuchColumn(column: string) | EngineError

  /** The result of one statement. */
  datatype Outcome<T> = Done(value: T) | Failed(error: StoreError)

  /** A non-empty finite set of integers has a largest element. */
  lemma {:induction false} LargestKey(keys: set<int>) returns (m: int)
    requires keys != {}
    ensures m in keys
    ensures forall k :: k in keys ==> k <= m
    decreases |keys|
  {
    if forall y :: y !in keys {
      assert false;
    }
    var x :| x in keys;
    var rest := keys - {x};
    if rest == {} {
      assert keys == {x};
      m := x;
    } else {
      var m' := LargestKey(rest);
      m := if x <= m' then m' else x;
      forall k | k in keys
        ensures k <= m
      {
        if k != x {
          assert k in rest;
        }
      }
    }
  }

  /** The largest key of a non-empty set. */
  function MaxKey(keys: set<int>): (m: int)
    requires keys != {}
    ensures m in keys
    ensures forall k :: k in keys ==> k <= m
  {
    assert exists m :: m in keys && forall k :: k in keys ==> k <= m by {
      var m := LargestKey(keys);
    }
    var m :| m in keys && forall k :: k in keys ==> k <= m;
    m
  }

  /** The rowid SQLite gives a new row of a table whose primary key is a plain
      `INTEGER PRIMARY KEY`: one more than the largest in use, or 1 for an empty table. */
  function NextRowId(keys: set<int>): (id: int)
    ensures id !in keys
    ensures forall k :: k in keys ==> k < id
    ensures keys == {} ==> id == 1
    ensures keys != {} ==> id - 1 in keys
  {
    if keys == {} then 1 else MaxKey(keys) + 1
  }

  /** The primary keys of `orders` are distinct and the table lists them in rowid
      order, the order a plain scan returns them in. */
  predicate IdsIncreasing(orders: seq<Order>)
  {
    forall i, j :: 0 <= i < j < |orders| ==> orders[i].id < orders[j].id
  }

  function OrderIds(orders: seq<Order>): set<int>
  {
    set i | 0 <= i < |orders| :: orders[i].id
  }

  /** `SELECT ... FROM orders WHERE user_id = ?`: the orders of one user, in table order. */
  function OrdersOf(orders: seq<Order>, userId: int): (mine: seq<Order>)
    ensures forall i :: 0 <= i < |mine| ==> mine[i].userId == userId && mine[i] in orders
    ensures forall o :: o in orders && o.userId == userId ==> o in mine
    ensures |mine| <= |orders|
  {
    if orders == [] then []
    else
      var rest := OrdersOf(orders[..|orders| - 1], userId);
      var last := orders[|orders| - 1];
      assert orders == orders[..|orders| - 1] + [last];
      if last.userId == userId then rest + [last] else rest
  }

  /** Appending an order extends the list of its own user and no other. */
  lemma {:induction false} OrdersOfAppend(orders: seq<Order>, o: Order, userId: int)
    ensures OrdersOf(orders + [o], userId) ==
              OrdersOf(orders, userId) + (if o.userId == userId then [o] else [])
  {
    assert (orders + [o])[..|orders + [o]| - 1] == orders;
  }

  function Row(o: Order): OrderRow
  {
    OrderRow(o.id, o.item, o.amount, o.date, o.paymentMethod, o.status)
  }

  function Rows(orders: seq<Order>): (rows: seq<OrderRow>)
    ensures |rows| == |orders|
    ensures forall i :: 0 <= i < |orders| ==> rows[i] == Row(orders[i])
  {
    seq(|orders|, i requires 0 <= i < |orders| => Row(orders[i]))
  }

  /** The listed row of user `id`: nothing but `city_id` is lost, so the row and
      the `city_id` column together give the stored user back. */
  function UserRowOf(id: int, u: User): (row: UserRow)
    ensures row.id == id
    ensures User(row.name, u.cityId, row.city, row.phone, row.email, row.registrationDate, row.balance) == u
  {
    UserRow(id, u.name, u.city, u.phone, u.email, u.registrationDate, u.balance)
  }

  /** `SELECT id, name, city, phone, email, registration_date, balance FROM users`:
      one row per user, keyed by its id. */
  function UserRows(users: map<int, User>): (rows: map<int, UserRow>)
    ensures rows.Keys == users.Keys
    ensures forall k :: k in rows ==> rows[k] == UserRowOf(k, users[k])
  {
    map k | k in users :: UserRowOf(k, users[k])
  }

  /** A stored or replaced user shows up in the listing under its id, and no other
      row of the listing changes. */
  lemma UserRowsUpdate(users: map<int, User>, id: int, u: User)
    ensures UserRows(users[id := u]) == UserRows(users)[id := UserRowOf(id, u)]
  {
  }

  /** A deleted user disappears from the listing, and no other row changes. */
  lemma UserRowsRemove(users: map<int, User>, id: int)
    ensures UserRows(users - {id}) == UserRows(users) - {id}
  {
  }

  /** The database: the `users`, `orders` and `cities` tables, the AUTOINCREMENT
      sequence of `cities`, and whether `users` has a `city` column. */
  class UserStore {
    var users: map<int, User>
    var orders: seq<Order>
    var cities: map<int, City>
    var citySequence: int
    const hasCityColumn: bool

    /** The AUTOINCREMENT sequence is at least every city id ever used, and the
        orders are in rowid order. */
    ghost predicate Valid()
      reads this
    {
      && (forall k :: k in cities ==> k <= citySequence)
      && IdsIncreasing(orders)
    }

    /** A database created by the schema in server.js: empty tables, no `city` column. */
    constructor Fresh()
      ensures Valid()
      ensures users == map[] && orders == [] && cities == map[] && !hasCityColumn
    {
      users, orders, cities, citySequence := map[], [], map[], 0;
      hasCityColumn := false;
    }

    /** A database file that already exists (the schema statements leave it alone). */
    constructor Open(users: map<int, User>, orders: seq<Order>, cities: map<int, City>,
                     citySequence: int, hasCityColumn: bool)
      requires forall k :: k in cities ==> k <= citySequence
      requires IdsIncreasing(orders)
      ensures Valid()
      ensures this.users == users && this.orders == orders && this.cities == cities
      ensures this.citySequence == citySequence && this.hasCityColumn == hasCityColumn
    {
      this.users, this.orders, this.cities := users, orders, cities;
      this.citySequence, this.hasCityColumn := citySequence, hasCityColumn;
    }

    /** Adds a user row under a fresh rowid. */
    method InsertUser(row: User, engineOk: bool) returns (r: Outcome<int>)
      requires Valid()
      modifies this
      ensures Valid()
      ensures r == (if engineOk then Done(NextRowId(old(users).Keys)) else Failed(EngineError))
      ensures r.Done? ==> r.value !in old(users) && users == old(users)[r.value := row]
      ensures r.Failed? ==> users == old(users)
      ensures orders == old(orders) && cities == old(cities) && citySequence == old(citySequence)
    {
      if !engineOk {
        return Failed(EngineError);
      }
      var id := NextRowId(users.Keys);
      users := users[id := row];
      r := Done(id);
    }

    /** `INSERT INTO users (name, city, phone, email, registration_date, balance)`. */
    method CreateUser(name: JsValue, city: JsValue, phone: JsValue, email: JsValue,
                      registrationDate: JsValue, balance: JsValue, engineOk: bool)
      returns (r: Outcome<int>)
      requires Valid()
      modifies this
      ensures Valid()
      ensures !hasCityColumn ==> r == Failed(NoSuchColumn("city"))
      ensures hasCityColumn && !engineOk ==> r == Failed(EngineError)
      ensures r.Done? <==> hasCityColumn && engineOk
      ensures r.Done? ==> r.value !in old(users) && forall k :: k in old(users) ==> k < r.value
      ensures r.Done? ==>
                users == old(users)[r.value := User(Bind(name), Null, Bind(city), Bind(phone),
                                                    Bind(email), Bind(registrationDate), Bind(balance))]
      ensures r.Failed? ==> users == old(users)
      ensures orders == old(orders) && cities == old(cities) && citySequence == old(citySequence)
    {
      if !hasCityColumn {
        return Failed(NoSuchColumn("city"));
      }
      var row := User(Bind(name), Null, Bind(city), Bind(phone), Bind(email), Bind(registrationDate), Bind(balance));
      r := InsertUser(row, engineOk);
    }

    /** `UPDATE users SET name = ?, city = ?, phone = ?, email = ?, registration_date = ?,
        balance = ? WHERE id = ?`; the result is the number of rows changed. */
    method ReplaceUser(id: int, name: JsValue, city: JsValue, phone: JsValue, email: JsValue,
                       registrationDate: JsValue, balance: JsValue, engineOk: bool)
      returns (r: Outcome<nat>)
      requires Valid()
      modifies this
      ensures Valid()
      ensures !hasCityColumn ==> r == Failed(NoSuchColumn("city"))
      ensures hasCityColumn && !engineOk ==> r == Failed(EngineError)
      ensures r.Done? <==> hasCityColumn && engineOk
      ensures r.Done? ==> r.value == (if id in old(users) then 1 else 0)
      ensures r.Done? && id in old(users) ==>
                users == old(users)[id := old(users)[id].(name := Bind(name), city := Bind(city),
                                                          phone := Bind(phone), email := Bind(email),
                                                          registrationDate := Bind(registrationDate),
                                                          balance := Bind(balance))]
      ensures r.Failed? || id !in old(users) ==> users == old(users)
      ensures orders == old(orders) && cities == old(cities) && citySequence == old(citySequence)
    {
      if !hasCityColumn {
        return Failed(NoSuchColumn("city"));
      }
      if !engineOk {
        return Failed(EngineError);
      }
      if id in users {
        users := users[id := users[id].(name := Bind(name), city := Bind(city), phone := Bind(phone),
                                        email := Bind(email), registrationDate := Bind(registrationDate),
                                        balance := Bind(balance))];
        r := Done(1);
      } else {
        r := Done(0);
      }
    }

    /** `UPDATE users SET city = COALESCE(?, city), phone = COALESCE(?, phone) WHERE id = ?`. */
    method PatchUser(id: int, city: JsValue, phone: JsValue, engineOk: bool) returns (r: Outcome<nat>)
      requires Valid()
      modifies this
      ensures Valid()
      ensures !hasCityColumn ==> r == Failed(NoSuchColumn("city"))
      ensures hasCityColumn && !engineOk ==> r == Failed(EngineError)
      ensures r.Done? <==> hasCityColumn && engineOk
      ensures r.Done? ==> r.value == (if id in old(users) then 1 else 0)
      ensures r.Done? && id in old(users) ==>
                users == old(users)[id := old(users)[id].(city := Coalesce(city, old(users)[id].city),
                                                          phone := Coalesce(phone, old(users)[id].phone))]
      ensures r.Failed? || id !in old(users) ==> users == old(users)
      ensures orders == old(orders) && cities == old(cities) && citySequence == old(citySequence)
    {
      if !hasCityColumn {
        return Failed(NoSuchColumn("city"));
      }
      if !engineOk {
        return Failed(EngineError);
      }
      if id in users {
        var u := users[id];
        users := users[id := u.(city := Coalesce(city, u.city), phone := Coalesce(phone, u.phone))];
        r := Done(1);
      } else {
        r := Done(0);
      }
    }

    /** `UPDATE users SET city_id = ? WHERE id = ?`. */
    method SetCity(id: int, cityId: JsValue, engineOk: bool) returns (r: Outcome<nat>)
      requires Valid()
      modifies this
      ensures Valid()
      ensures r.Failed? <==> !engineOk
      ensures r.Done? ==> r.value == (if id in old(users) then 1 else 0)
      ensures r.Done? && id in old(users) ==> users == old(users)[id := old(users)[id].(cityId := Bind(cityId))]
      ensures r.Failed? || id !in old(users) ==> users == old(users)
      ensures orders == old(orders) && cities == old(cities) && citySequence == old(citySequence)
    {
      if !engineOk {
        return Failed(EngineError);
      }
      if id in users {
        users := users[id := users[id].(cityId := Bind(cityId))];
        r := Done(1);
      } else {
        r := Done(0);
      }
    }

    /** `DELETE FROM users WHERE id = ?`: deleting an absent id changes nothing and
        still succeeds. */
    method DeleteUser(id: int, engineOk: bool) returns (r: Outcome<nat>)
      requires Valid()
      modifies this
      ensures Valid()
      ensures r.Failed? <==> !engineOk
      ensures r.Done? ==> r.value == (if id in old(users) then 1 else 0) && users == old(users) - {id}
      ensures r.Failed? ==> users == old(users)
      ensures orders == old(orders) && cities == old(cities) && citySequence == old(citySequence)
    {
      if !engineOk {
        return Failed(EngineError);
      }
      r := Done(if id in users then 1 else 0);
      users := users - {id};
    }

    /** `INSERT INTO orders (user_id, item, amount, date, payment_method, status)`. */
    method InsertOrder(userId: int, item: JsValue, amount: JsValue, date: JsValue,
                       paymentMethod: JsValue, status: JsValue, engineOk: bool)
      returns (r: Outcome<int>)
      requires Valid()
      modifies this
      ensures Valid()
      ensures r.Failed? <==> !engineOk
      ensures r.Done? ==> r.value !in OrderIds(old(orders))
      ensures r.Done? ==>
                orders == old(orders) + [Order(r.value, userId, Bind(item), Bind(amount), Bind(date),
                                               Bind(paymentMethod), Bind(status))]
      ensures r.Failed? ==> orders == old(orders)
      ensures users == old(users) && cities == old(cities) && citySequence == old(citySequence)
    {
      if !engineOk {
        return Failed(EngineError);
      }
      var id := NextRowId(OrderIds(orders));
      forall i | 0 <= i < |orders|
        ensures orders[i].id < id
      {
        assert orders[i].id in OrderIds(orders);
      }
      orders := orders + [Order(id, userId, Bind(item), Bind(amount), Bind(date), Bind(paymentMethod), Bind(status))];
      r := Done(id);
    }

    /** `SELECT id, item, amount, date, payment_method, status FROM orders WHERE user_id = ?`. */
    method ListOrders(userId: int, engineOk: bool) returns (r: Outcome<seq<OrderRow>>)
      ensures r.Failed? <==> !engineOk
      ensures r.Done? ==> r.value == Rows(OrdersOf(orders, userId))
    {
      if !engineOk {
        return Failed(EngineError);
      }
      r := Done(Rows(OrdersOf(orders, userId)));
    }

    /** `SELECT id, name, city, phone, email, registration_date, balance FROM users`. */
    method ListUsers(engineOk: bool) returns (r: Outcome<map<int, UserRow>>)
      ensures !hasCityColumn ==> r == Failed(NoSuchColumn("city"))
      ensures r.Done? <==> hasCityColumn && engineOk
      ensures r.Done? ==> r.value == UserRows(users)
    {
      if !hasCityColumn {
        return Failed(NoSuchColumn("city"));
      }
      if !engineOk {
        return Failed(EngineError);
      }
      r := Done(UserRows(users));
    }

    /** `INSERT INTO cities (name, country)`: AUTOINCREMENT gives an id above every id
        the table has ever used. */
    method CreateCity(name: JsValue, country: JsValue, engineOk: bool) returns (r: Outcome<int>)
      requires Valid()
      modifies this
      ensures Valid()
      ensures r.Failed? <==> !engineOk
      ensures r.Done? ==> r.value == old(citySequence) + 1 && r.value !in old(cities)
      ensures r.Done? ==> cities == old(cities)[r.value := City(Bind(name), Bind(country))]
                          && citySequence == r.value
      ensures r.Failed? ==> cities == old(cities) && citySequence == old(citySequence)
      ensures users == old(users) && orders == old(orders)
    {
      if !engineOk {
        return Failed(EngineError);
      }
      citySequence := citySequence + 1;
      cities := cities[citySequence := City(Bind(name), Bind(country))];
      r := Done(citySequence);
    }
  }
}
