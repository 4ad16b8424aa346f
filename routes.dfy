/** The route handlers of server.js, each composed from the token gate, the route's
    presence check and one store statement, in that order. A request that fails the
    gate or the presence check is answered before the store is touched. */
module Routes {
  import opened Values
  import opened Text
  import opened Auth
  import opened Validate
  import opened Store
  import opened Uploads

  /** What the client presents: the `Authorization` header, whether the JWT library
      accepts the token's signature, and the claims the token carries. */
  datatype Credentials = Credentials(authorization: Option<string>, signatureValid: bool, payload: Claims)

  /** The answer a handler sends. Every variant but `Error` is a 200. `Created`
      carries the new id and the request fields the handler echoes back. */
  datatype Reply =
    | Error(code: nat)
    | Confirmed
    | Created(id: int, echo: Body)
    | OrderCreated(orderId: int)
    | OrderList(rows: seq<OrderRow>)
    | UserList(listing: map<int, UserRow>)
    | Uploaded(filename: string)
    | TokenIssued(claims: Claims)
  {
    function Status(): nat
    {
      if Error? then code else 200
    }
  }

  /** The fields of the request a handler echoes in its JSON answer next to the new
      id. `JSON.stringify` leaves out a field that is `undefined`. */
  function Echo(body: Body, keys: set<string>): (echo: Body)
    ensures forall k :: k in echo <==> k in keys && Field(body, k) != Undefined
    ensures forall k :: k in echo ==> echo[k] == Field(body, k)
  {
    map k | k in keys && k in body && body[k] != Undefined :: body[k]
  }

  /** The fields `POST /cities` echoes. */
  const CityEcho: set<string> := {"name", "country"}

  /** The fields `POST /users` echoes. */
  const UserEcho: set<string> := {"name", "city", "phone", "email", "registration_date", "balance"}

  /** `authenticateToken` applied to the credentials at time `nowMs`. */
  function Verify(cred: Credentials, nowMs: nat): Gate
  {
    Authenticate(cred.authorization, cred.signatureValid, cred.payload, nowMs)
  }

  /** `POST /auth/token`: a token for "admin" or "user", 400 for anything else. */
  function IssueTokenRoute(body: Body, nowMs: nat): (r: Reply)
    ensures r.Status() == 400 <==> Field(body, "role") != Str("admin") && Field(body, "role") != Str("user")
    ensures r.TokenIssued? ==> r.claims.role == Field(body, "role").s
    ensures r.TokenIssued? ==> r.claims.exp == Seconds(nowMs) + TokenLifetime
    ensures r.Error? || r.TokenIssued?
  {
    match Issue(Field(body, "role"), nowMs)
    case None => Error(400)
    case Some(claims) => TokenIssued(claims)
  }

  /** `DELETE /users/:id`: token check, then admin check, then an idempotent delete. */
  method DeleteUserRoute(store: UserStore, cred: Credentials, nowMs: nat, id: int, engineOk: bool)
    returns (r: Reply)
    requires store.Valid()
    modifies store
    ensures store.Valid()
    ensures Verify(cred, nowMs).Deny? ==> r == Error(Verify(cred, nowMs).status)
    ensures Verify(cred, nowMs).Proceed? && cred.payload.role != "admin" ==> r == Error(403)
    ensures r.Status() in {401, 403} ==> store.users == old(store.users)
    ensures cred.payload.role != "admin" ==> r.Status() in {401, 403}
    ensures r == Confirmed <==> AdminGate(cred.authorization, cred.signatureValid, cred.payload, nowMs).Proceed? && engineOk
    ensures r == Confirmed ==> store.users == old(store.users) - {id}
    ensures r != Confirmed ==> store.users == old(store.users)
    ensures store.orders == old(store.orders) && store.cities == old(store.cities)
    ensures store.citySequence == old(store.citySequence)
  {
    var gate := AdminGate(cred.authorization, cred.signatureValid, cred.payload, nowMs);
    AdminGateOrder(cred.authorization, cred.signatureValid, cred.payload, nowMs);
    if gate.Deny? {
      return Error(gate.status);
    }
    var outcome := store.DeleteUser(id, engineOk);
    r := if outcome.Done? then Confirmed else Error(500);
  }

  /** `POST /cities`: both fields present, then an insert. */
  method CreateCityRoute(store: UserStore, cred: Credentials, nowMs: nat, body: Body, engineOk: bool)
    returns (r: Reply)
    requires store.Valid()
    modifies store
    ensures store.Valid()
    ensures Verify(cred, nowMs).Deny? ==> r == Error(Verify(cred, nowMs).status)
    ensures r == Error(400) <==> Verify(cred, nowMs).Proceed? && !CityRequestComplete(body)
    ensures r.Created? <==> Verify(cred, nowMs).Proceed? && CityRequestComplete(body) && engineOk
    ensures r.Created? ==>
              r.id !in old(store.cities) &&
              store.cities == old(store.cities)[r.id := City(body["name"], body["country"])] &&
              store.citySequence == r.id
    ensures r.Created? ==> r.id == old(store.citySequence) + 1
    ensures r.Created? ==> r.echo == Echo(body, CityEcho)
    ensures !r.Created? ==> store.cities == old(store.cities) && store.citySequence == old(store.citySequence)
    ensures store.users == old(store.users) && store.orders == old(store.orders)
  {
    var gate := Verify(cred, nowMs);
    if gate.Deny? {
      return Error(gate.status);
    }
    if !CityRequestComplete(body) {
      return Error(400);
    }
    var outcome := store.CreateCity(Field(body, "name"), Field(body, "country"), engineOk);
    r := if outcome.Done? then Created(outcome.value, Echo(body, CityEcho)) else Error(500);
  }

  /** `PUT /users/:id/city`: a truthy `city_id`, then the update of that one column. */
  method SetCityRoute(store: UserStore, cred: Credentials, nowMs: nat, id: int, body: Body, engineOk: bool)
    returns (r: Reply)
    requires store.Valid()
    modifies store
    ensures store.Valid()
    ensures Verify(cred, nowMs).Deny? ==> r == Error(Verify(cred, nowMs).status)
    ensures r == Error(400) <==> Verify(cred, nowMs).Proceed? && !CityAssignmentComplete(body)
    ensures r == Confirmed <==> Verify(cred, nowMs).Proceed? && CityAssignmentComplete(body) && engineOk
    ensures r == Confirmed && id in old(store.users) ==>
              store.users == old(store.users)[id := old(store.users)[id].(cityId := body["city_id"])]
    ensures r != Confirmed || id !in old(store.users) ==> store.users == old(store.users)
    ensures store.orders == old(store.orders) && store.cities == old(store.cities)
    ensures store.citySequence == old(store.citySequence)
  {
    var gate := Verify(cred, nowMs);
    if gate.Deny? {
      return Error(gate.status);
    }
    if !CityAssignmentComplete(body) {
      return Error(400);
    }
    var outcome := store.SetCity(id, Field(body, "city_id"), engineOk);
    r := if outcome.Done? then Confirmed else Error(500);
  }

  /** `GET /users`. */
  method ListUsersRoute(store: UserStore, cred: Credentials, nowMs: nat, engineOk: bool) returns (r: Reply)
    ensures Verify(cred, nowMs).Deny? ==> r == Error(Verify(cred, nowMs).status)
    ensures Verify(cred, nowMs).Proceed? && !store.hasCityColumn ==> r == Error(500)
    ensures r.UserList? <==> Verify(cred, nowMs).Proceed? && store.hasCityColumn && engineOk
    ensures r.UserList? ==> r.listing == UserRows(store.users)
  {
    var gate := Verify(cred, nowMs);
    if gate.Deny? {
      return Error(gate.status);
    }
    var outcome := store.ListUsers(engineOk);
    r := if outcome.Done? then UserList(outcome.value) else Error(500);
  }

  /** `GET /users/:id/orders`: the orders whose `user_id` is the path id. */
  method ListOrdersRoute(store: UserStore, cred: Credentials, nowMs: nat, userId: int, engineOk: bool)
    returns (r: Reply)
    ensures Verify(cred, nowMs).Deny? ==> r == Error(Verify(cred, nowMs).status)
    ensures r.OrderList? <==> Verify(cred, nowMs).Proceed? && engineOk
    ensures r.OrderList? ==> r.rows == Rows(OrdersOf(store.orders, userId))
    ensures r.Error? && Verify(cred, nowMs).Proceed? ==> r.code == 500
  {
    var gate := Verify(cred, nowMs);
    if gate.Deny? {
      return Error(gate.status);
    }
    var outcome := store.ListOrders(userId, engineOk);
    r := if outcome.Done? then OrderList(outcome.value) else Error(500);
  }

  /** `POST /users`: a truthy name, then an insert naming the `city` column. */
  method CreateUserRoute(store: UserStore, cred: Credentials, nowMs: nat, body: Body, engineOk: bool)
    returns (r: Reply)
    requires store.Valid()
    modifies store
    ensures store.Valid()
    ensures Verify(cred, nowMs).Deny? ==> r == Error(Verify(cred, nowMs).status)
    ensures r == Error(400) <==> Verify(cred, nowMs).Proceed? && !NewUserComplete(body)
    ensures Verify(cred, nowMs).Proceed? && NewUserComplete(body) && !store.hasCityColumn ==> r == Error(500)
    ensures r.Created? <==> Verify(cred, nowMs).Proceed? && NewUserComplete(body) && store.hasCityColumn && engineOk
    ensures r.Created? ==>
              r.id !in old(store.users) &&
              store.users == old(store.users)[r.id := User(body["name"], Null, Bind(Field(body, "city")),
                                                           Bind(Field(body, "phone")), Bind(Field(body, "email")),
                                                           Bind(Field(body, "registration_date")),
                                                           Bind(Field(body, "balance")))]
    ensures r.Created? ==> r.echo == Echo(body, UserEcho)
    ensures !r.Created? ==> store.users == old(store.users)
    ensures store.orders == old(store.orders) && store.cities == old(store.cities)
    ensures store.citySequence == old(store.citySequence)
  {
    var gate := Verify(cred, nowMs);
    if gate.Deny? {
      return Error(gate.status);
    }
    if !NewUserComplete(body) {
      return Error(400);
    }
    var outcome := store.CreateUser(Field(body, "name"), Field(body, "city"), Field(body, "phone"),
                                    Field(body, "email"), Field(body, "registration_date"),
                                    Field(body, "balance"), engineOk);
    r := if outcome.Done? then Created(outcome.value, Echo(body, UserEcho)) else Error(500);
  }

  /** `POST /users/:id/orders`: no presence check at all; absent fields are stored as NULL. */
  method CreateOrderRoute(store: UserStore, cred: Credentials, nowMs: nat, userId: int, body: Body, engineOk: bool)
    returns (r: Reply)
    requires store.Valid()
    modifies store
    ensures store.Valid()
    ensures Verify(cred, nowMs).Deny? ==> r == Error(Verify(cred, nowMs).status)
    ensures r.OrderCreated? <==> Verify(cred, nowMs).Proceed? && engineOk
    ensures r.OrderCreated? ==>
              r.orderId !in OrderIds(old(store.orders)) &&
              store.orders == old(store.orders) + [Order(r.orderId, userId, Bind(Field(body, "item")),
                                                         Bind(Field(body, "amount")), Bind(Field(body, "date")),
                                                         Bind(Field(body, "payment_method")),
                                                         Bind(Field(body, "status")))]
    ensures !r.OrderCreated? ==> store.orders == old(store.orders)
    ensures store.users == old(store.users) && store.cities == old(store.cities)
    ensures store.citySequence == old(store.citySequence)
  {
    var gate := Verify(cred, nowMs);
    if gate.Deny? {
      return Error(gate.status);
    }
    var outcome := store.InsertOrder(userId, Field(body, "item"), Field(body, "amount"), Field(body, "date"),
                                     Field(body, "payment_method"), Field(body, "status"), engineOk);
    r := if outcome.Done? then OrderCreated(outcome.value) else Error(500);
  }

  /** `PATCH /users/:id`: at least one of `city` and `phone`, then a coalescing update. */
  method PatchUserRoute(store: UserStore, cred: Credentials, nowMs: nat, id: int, body: Body, engineOk: bool)
    returns (r: Reply)
    requires store.Valid()
    modifies store
    ensures store.Valid()
    ensures Verify(cred, nowMs).Deny? ==> r == Error(Verify(cred, nowMs).status)
    ensures r == Error(400) <==>
              Verify(cred, nowMs).Proceed? && !Truthy(Field(body, "city")) && !Truthy(Field(body, "phone"))
    ensures r == Confirmed <==>
              Verify(cred, nowMs).Proceed? && PatchRequestComplete(body) && store.hasCityColumn && engineOk
    ensures r == Confirmed && id in old(store.users) ==>
              var before := old(store.users)[id];
              store.users == old(store.users)[id := before.(city := Coalesce(Field(body, "city"), before.city),
                                                            phone := Coalesce(Field(body, "phone"), before.phone))]
    ensures r != Confirmed || id !in old(store.users) ==> store.users == old(store.users)
    ensures store.orders == old(store.orders) && store.cities == old(store.cities)
    ensures store.citySequence == old(store.citySequence)
  {
    var gate := Verify(cred, nowMs);
    if gate.Deny? {
      return Error(gate.status);
    }
    if !PatchRequestComplete(body) {
      return Error(400);
    }
    var outcome := store.PatchUser(id, Field(body, "city"), Field(body, "phone"), engineOk);
    r := if outcome.Done? then Confirmed else Error(500);
  }

  /** `PUT /users/:id`: five truthy fields and a defined balance, then all six columns
      of the row are overwritten. */
  method ReplaceUserRoute(store: UserStore, cred: Credentials, nowMs: nat, id: int, body: Body, engineOk: bool)
    returns (r: Reply)
    requires store.Valid()
    modifies store
    ensures store.Valid()
    ensures Verify(cred, nowMs).Deny? ==> r == Error(Verify(cred, nowMs).status)
    ensures r == Error(400) <==> Verify(cred, nowMs).Proceed? && !ReplaceRequestComplete(body)
    ensures r == Confirmed <==>
              Verify(cred, nowMs).Proceed? && ReplaceRequestComplete(body) && store.hasCityColumn && engineOk
    ensures r == Confirmed && id in old(store.users) ==>
              store.users == old(store.users)[id := old(store.users)[id].(
                name := Field(body, "name"), city := Field(body, "city"), phone := Field(body, "phone"),
                email := Field(body, "email"), registrationDate := Field(body, "registration_date"),
                balance := Field(body, "balance"))]
    ensures r != Confirmed || id !in old(store.users) ==> store.users == old(store.users)
    ensures store.orders == old(store.orders) && store.cities == old(store.cities)
    ensures store.citySequence == old(store.citySequence)
  {
    var gate := Verify(cred, nowMs);
    if gate.Deny? {
      return Error(gate.status);
    }
    if !ReplaceRequestComplete(body) {
      return Error(400);
    }
    assert Truthy(Field(body, ReplaceTruthyFields[0])) && Truthy(Field(body, ReplaceTruthyFields[1]));
    assert Truthy(Field(body, ReplaceTruthyFields[2])) && Truthy(Field(body, ReplaceTruthyFields[3]));
    assert Truthy(Field(body, ReplaceTruthyFields[4]));
    var outcome := store.ReplaceUser(id, Field(body, "name"), Field(body, "city"), Field(body, "phone"),
                                     Field(body, "email"), Field(body, "registration_date"),
                                     Field(body, "balance"), engineOk);
    r := if outcome.Done? then Confirmed else Error(500);
  }

  /** `GET /secure-endpoint`: any non-empty `X-Custom-Header`. */
  function SecureEndpoint(cred: Credentials, nowMs: nat, customHeader: Option<string>): (r: Reply)
    ensures Verify(cred, nowMs).Deny? ==> r == Error(Verify(cred, nowMs).status)
    ensures r == Error(400) <==> Verify(cred, nowMs).Proceed? && (customHeader.None? || customHeader.value == "")
    ensures r == Confirmed <==> Verify(cred, nowMs).Proceed? && customHeader.Some? && customHeader.value != ""
  {
    match Verify(cred, nowMs)
    case Deny(status) => Error(status)
    case Proceed(_) => if CustomHeaderPresent(customHeader) then Confirmed else Error(400)
  }

  /** A file part of a multipart request: its form field, multer's `originalname`
      (the client's file name as the multipart parser hands it on) and its declared
      MIME type. multer skips a part whose file name is empty (what a
      browser sends for an empty file input), so the handler sees no file. */
  datatype FilePart = FilePart(field: string, originalName: string, mimeType: string)

  /** `POST /upload`. multer runs between the gate and the handler: a part in another
      field or of a refused type is an error handed to Express's default error handler
      (500); a request with no file part, or only a part without a file name, reaches
      the handler, which answers 400. */
  function UploadRoute(cred: Credentials, nowMs: nat, part: Option<FilePart>, writeOk: bool): (r: Reply)
    ensures Verify(cred, nowMs).Deny? ==> r == Error(Verify(cred, nowMs).status)
    ensures r == Error(400) <==> Verify(cred, nowMs).Proceed? && (part.None? || part.value.originalName == "")
    ensures r.Uploaded? <==>
              Verify(cred, nowMs).Proceed? && part.Some? && part.value.originalName != "" &&
              part.value.field == "file" && FileFilter(part.value.mimeType) && writeOk
    ensures r.Uploaded? ==> r.filename == MultipartFilename(nowMs, part.value.originalName)
    ensures (Verify(cred, nowMs).Proceed? && part.Some? && part.value.originalName != "" &&
             !FileFilter(part.value.mimeType)) ==> r == Error(500)
  {
    match Verify(cred, nowMs)
    case Deny(status) => Error(status)
    case Proceed(_) =>
      match part
      case None => Error(400)
      case Some(file) =>
        if file.originalName == "" then Error(400)
        else if file.field != "file" || !FileFilter(file.mimeType) || !writeOk then Error(500)
        else Uploaded(MultipartFilename(nowMs, file.originalName))
  }

  /** `POST /upload-base64`: a truthy `image_base64` that matches the data-URI pattern
      is stored as `<now>.<ext>`. A truthy value that is not a string has no `match`
      method; the TypeError is answered with 500. */
  function UploadBase64Route(cred: Credentials, nowMs: nat, body: Body, writeOk: bool): (r: Reply)
    ensures Verify(cred, nowMs).Deny? ==> r == Error(Verify(cred, nowMs).status)
    ensures Verify(cred, nowMs).Proceed? && !Truthy(Field(body, "image_base64")) ==> r == Error(400)
    ensures (Verify(cred, nowMs).Proceed? && Field(body, "image_base64").Str? &&
             ParseDataUri(Field(body, "image_base64").s).None?) ==> r == Error(400)
    ensures r.Uploaded? <==>
              Verify(cred, nowMs).Proceed? && Field(body, "image_base64").Str? &&
              ParseDataUri(Field(body, "image_base64").s).Some? && writeOk
    ensures r.Uploaded? ==>
              var d := ParseDataUri(Field(body, "image_base64").s).value;
              Compose(d) == Field(body, "image_base64").s && r.filename == Base64Filename(nowMs, d.ext)
  {
    match Verify(cred, nowMs)
    case Deny(status) => Error(status)
    case Proceed(_) =>
      var image := Field(body, "image_base64");
      if !Truthy(image) then Error(400)
      else if !image.Str? then Error(500)
      else
        match ParseDataUri(image.s)
        case None => Error(400)
        case Some(d) => if writeOk then Uploaded(Base64Filename(nowMs, d.ext)) else Error(500)
  }
}
