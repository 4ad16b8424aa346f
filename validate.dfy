/** The presence checks each route makes on its input before it touches the store.
    A check that fails is answered with 400. All of them use JavaScript truthiness,
    except the `balance` check of the full replace, which only asks for a defined value. */
module Validate {
  import opened Values

  /** `POST /cities` needs a truthy `name` and a truthy `country`. */
  predicate CityRequestComplete(body: Body)
  {
    Truthy(Field(body, "name")) && Truthy(Field(body, "country"))
  }

  /** `PUT /users/:id/city` needs a truthy `city_id` (so 0 is refused). */
  predicate CityAssignmentComplete(body: Body)
  {
    Truthy(Field(body, "city_id"))
  }

  /** `POST /users` needs a truthy `name`; every other field is optional. */
  predicate NewUserComplete(body: Body)
  {
    Truthy(Field(body, "name"))
  }

  /** `PATCH /users/:id` needs at least one of `city` and `phone` to be truthy. */
  predicate PatchRequestComplete(body: Body)
  {
    Truthy(Field(body, "city")) || Truthy(Field(body, "phone"))
  }

  /** The fields `PUT /users/:id` requires to be truthy. */
  const ReplaceTruthyFields: seq<string> := ["name", "city", "phone", "email", "registration_date"]

  /** `PUT /users/:id` needs the five text fields truthy and `balance` merely defined. */
  predicate ReplaceRequestComplete(body: Body)
  {
    && (forall i :: 0 <= i < |ReplaceTruthyFields| ==> Truthy(Field(body, ReplaceTruthyFields[i])))
    && Field(body, "balance") != Undefined
  }

  /** `GET /secure-endpoint` needs a non-empty `X-Custom-Header`. */
  predicate CustomHeaderPresent(header: Option<string>)
  {
    header.Some? && header.value != ""
  }

  /** A city needs both fields: dropping either, or giving it an empty string, fails. */
  lemma CityRequestNeedsBoth(body: Body)
    ensures !CityRequestComplete(body - {"name"}) && !CityRequestComplete(body - {"country"})
    ensures !CityRequestComplete(body["name" := Str("")]) && !CityRequestComplete(body["country" := Str("")])
    ensures !CityRequestComplete(body["name" := Null]) && !CityRequestComplete(body["country" := Null])
  {
  }

  /** City reassignment refuses an absent, null or zero `city_id` and accepts any
      non-zero number. */
  lemma CityAssignmentRefusesZero(body: Body, id: real)
    ensures !CityAssignmentComplete(body - {"city_id"})
    ensures !CityAssignmentComplete(body["city_id" := Num(0.0)])
    ensures !CityAssignmentComplete(body["city_id" := Null])
    ensures id != 0.0 ==> CityAssignmentComplete(body["city_id" := Num(id)])
  {
  }

  /** A body holding just a non-empty name is enough to create a user; without a
      name nothing else helps. */
  lemma NewUserNeedsOnlyName(name: string, body: Body)
    requires name != ""
    ensures NewUserComplete(map["name" := Str(name)])
    ensures !NewUserComplete(body - {"name"})
  {
  }

  /** A patch is refused exactly when neither `city` nor `phone` is truthy, so one
      of them alone is enough. */
  lemma PatchNeedsOne(body: Body, v: JsValue)
    ensures !PatchRequestComplete(body) <==>
              !Truthy(Field(body, "city")) && !Truthy(Field(body, "phone"))
    ensures Truthy(v) ==> PatchRequestComplete(body["city" := v]) && PatchRequestComplete(body["phone" := v])
    ensures !PatchRequestComplete(body - {"city", "phone"})
  {
  }

  /** The full replace accepts a balance of 0 or null (only `undefined` is refused)
      and refuses the request when any text field is missing. */
  lemma ReplaceBalanceOnlyDefined(body: Body, key: string)
    requires ReplaceRequestComplete(body)
    ensures ReplaceRequestComplete(body["balance" := Num(0.0)])
    ensures ReplaceRequestComplete(body["balance" := Null])
    ensures !ReplaceRequestComplete(body - {"balance"})
    ensures key in ReplaceTruthyFields ==> !ReplaceRequestComplete(body - {key})
  {
    if key in ReplaceTruthyFields {
      var i :| 0 <= i < |ReplaceTruthyFields| && ReplaceTruthyFields[i] == key;
      assert !Truthy(Field(body - {key}, ReplaceTruthyFields[i]));
    }
    forall i | 0 <= i < |ReplaceTruthyFields|
      ensures Truthy(Field(body["balance" := Num(0.0)], ReplaceTruthyFields[i]))
      ensures Truthy(Field(body["balance" := Null], ReplaceTruthyFields[i]))
    {
      assert ReplaceTruthyFields[i] != "balance";
    }
  }

  /** The custom header is refused when absent or empty, accepted otherwise. */
  lemma CustomHeaderAnyValue(value: string)
    ensures !CustomHeaderPresent(None)
    ensures CustomHeaderPresent(Some(value)) <==> value != ""
  {
  }
}
