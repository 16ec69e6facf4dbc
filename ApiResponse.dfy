/** The browser's normalisation of backend replies: the newer replies carry
    success/data/error, the older ones a `result` flag next to one payload key, and
    some carry only the payload. Every reply is turned into one record shape. */
module ApiResponse {
  import opened JsonData

  datatype Normalized = Normalized(success: Json, data: Json, message: Json, error: Json)

  /** `x || null` on an optional member. */
  function OrNull(fields: map<string, Json>, key: string): (r: Json)
    ensures key in fields && JsTruthy(fields[key]) ==> r == fields[key]
    ensures !(key in fields && JsTruthy(fields[key])) ==> r == JNull
  {
    if key in fields && JsTruthy(fields[key]) then fields[key] else JNull
  }

  /** The listed members of `fields` that are present, as an object. */
  function Pick(fields: map<string, Json>, keys: set<string>): (r: map<string, Json>)
    ensures forall k :: k in r <==> k in keys && k in fields
    ensures forall k :: k in r ==> r[k] == fields[k]
  {
    map k | k in keys && k in fields :: fields[k]
  }

  /** The payload of an old-style reply: the first present member of content, token,
      group, accounts, user_list, stats and login_records, re-wrapped as the new format
      names it; when none is present, the other members of the reply, or null. */
  function LegacyData(fields: map<string, Json>): Json {
    if "content" in fields then fields["content"]
    else if "token" in fields then JObj(Pick(fields, {"token", "username"}))
    else if "group" in fields then JObj(map["group" := fields["group"]])
    else if "accounts" in fields then JObj(map["accounts" := fields["accounts"]])
    else if "user_list" in fields then JObj(map["users" := fields["user_list"]])
    else if "stats" in fields then JObj(map["stats" := fields["stats"]])
    else if "login_records" in fields then JObj(Pick(fields, {"login_records", "total_count"}))
    else
      var rest := fields - {"result"};
      if |rest| > 0 then JObj(rest) else JNull
  }

  /** `a || b || "Unknown error"` over the members content and error. */
  function LegacyErrorMessage(fields: map<string, Json>): Json {
    if "content" in fields && JsTruthy(fields["content"]) then fields["content"]
    else if "error" in fields && JsTruthy(fields["error"]) then fields["error"]
    else JStr("Unknown error")
  }

  function Normalize(raw: map<string, Json>): (r: Normalized)
    ensures "success" in raw ==> r.success == raw["success"]
    ensures "success" in raw ==>
              (r.data == if "data" in raw && JsTruthy(raw["data"]) then raw["data"] else JNull)
              && (r.message == if "message" in raw && JsTruthy(raw["message"]) then raw["message"] else JNull)
              && (r.error == if "error" in raw && JsTruthy(raw["error"]) then raw["error"] else JNull)
    ensures "success" !in raw ==> r.success.JBool? && r.message == JNull
    ensures "success" !in raw && "result" !in raw ==> r.success == JBool(true) && r.error == JNull
  {
    if "success" in raw then
      Normalized(raw["success"], OrNull(raw, "data"), OrNull(raw, "message"), OrNull(raw, "error"))
    else if "result" in raw then
      var success := raw["result"] == JBool(true) || raw["result"] == JStr("true");
      Normalized(JBool(success), LegacyData(raw), JNull,
                 if success then JNull else JObj(map["message" := LegacyErrorMessage(raw)]))
    else if "token" in raw then
      Normalized(JBool(true), JObj(Pick(raw, {"token", "username"})), JNull, JNull)
    else if "group" in raw then
      Normalized(JBool(true), JObj(map["group" := raw["group"]]), JNull, JNull)
    else
      Normalized(JBool(true), JObj(raw), JNull, JNull)
  }

  /** A "success" member wins over a "result" member: such a reply is read as a new one. */
  lemma SuccessBeatsResult(raw: map<string, Json>)
    requires "success" in raw && "result" in raw
    ensures Normalize(raw) == Normalized(raw["success"], OrNull(raw, "data"), OrNull(raw, "message"), OrNull(raw, "error"))
  {
  }

  /** An old reply succeeds exactly when its result is true or "true", and it carries an
      error exactly when it fails. */
  lemma LegacySuccess(raw: map<string, Json>)
    requires "success" !in raw && "result" in raw
    ensures Normalize(raw).success == JBool(raw["result"] == JBool(true) || raw["result"] == JStr("true"))
    ensures Normalize(raw).error == JNull <==> Normalize(raw).success == JBool(true)
    ensures Normalize(raw).data == LegacyData(raw)
  {
  }

  /** The payload order: content first, then token, group, accounts, user_list, stats and
      login_records; with none of them the payload is everything but `result`. */
  lemma LegacyDataOrder(fields: map<string, Json>)
    ensures "content" in fields ==> LegacyData(fields) == fields["content"]
    ensures "content" !in fields && "token" in fields ==>
              LegacyData(fields).JObj? && LegacyData(fields).fields["token"] == fields["token"]
    ensures "content" !in fields && "token" !in fields && "group" in fields ==>
              LegacyData(fields) == JObj(map["group" := fields["group"]])
    ensures "content" !in fields && "token" !in fields && "group" !in fields && "accounts" in fields ==>
              LegacyData(fields) == JObj(map["accounts" := fields["accounts"]])
    ensures ("content" !in fields && "token" !in fields && "group" !in fields && "accounts" !in fields
             && "user_list" in fields) ==> LegacyData(fields) == JObj(map["users" := fields["user_list"]])
    ensures ("content" !in fields && "token" !in fields && "group" !in fields && "accounts" !in fields
             && "user_list" !in fields && "stats" in fields) ==> LegacyData(fields) == JObj(map["stats" := fields["stats"]])
    ensures ("content" !in fields && "token" !in fields && "group" !in fields && "accounts" !in fields
             && "user_list" !in fields && "stats" !in fields && "login_records" in fields) ==>
              LegacyData(fields).JObj? && LegacyData(fields).fields["login_records"] == fields["login_records"]
    ensures (forall k :: k in fields ==> k !in {"content", "token", "group", "accounts", "user_list", "stats", "login_records"})
            ==> (LegacyData(fields) == JNull <==> fields.Keys <= {"result"})
  {
    var rest := fields - {"result"};
    if forall k :: k in fields ==> k !in {"content", "token", "group", "accounts", "user_list", "stats", "login_records"} {
      if |rest| > 0 {
        var k :| k in rest;
        assert k in fields && k != "result";
      } else {
        assert forall k :: k in fields ==> k in {"result"} by {
          forall k | k in fields ensures k in {"result"} {
            assert k !in rest;
          }
        }
      }
    }
  }

  /** A reply with neither flag succeeds; without token or group it becomes the payload
      whole. */
  lemma BareReply(raw: map<string, Json>)
    requires "success" !in raw && "result" !in raw
    ensures Normalize(raw).success == JBool(true) && Normalize(raw).error == JNull
    ensures "token" !in raw && "group" !in raw ==> Normalize(raw).data == JObj(raw)
    ensures "token" in raw ==> Normalize(raw).data.fields["token"] == raw["token"]
  {
  }
}
