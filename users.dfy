/** The user collection: profiles are documents found by their "email" field.
    PUT /users/admin/:email sets the role of an existing profile; PUT
    /users/:email writes the request body into the profile, creating it when
    absent. */
module Users {
  import opened Records
  import opened Sequences

  predicate HasEmail(d: Doc, email: string)
  {
    "email" in d && d["email"] == email
  }

  /** The stored role is exactly the string "admin". */
  predicate IsAdmin(d: Doc)
  {
    "role" in d && d["role"] == "admin"
  }

  /** `findOne({email})`: the first profile with that email. */
  function FindUser(users: seq<Doc>, email: string): (r: Option<nat>)
    ensures r.Some? ==> r.value < |users| && HasEmail(users[r.value], email)
    ensures r.Some? ==> forall j :: 0 <= j < r.value ==> !HasEmail(users[j], email)
    ensures r.None? ==> forall d :: d in users ==> !HasEmail(d, email)
  {
    FindFirst(users, (d: Doc) => HasEmail(d, email))
  }

  /** Position `i` holds the first profile with the email, the one `findOne` returns. */
  predicate FirstWithEmail(users: seq<Doc>, email: string, i: nat)
  {
    i < |users| && HasEmail(users[i], email) && forall j :: 0 <= j < i ==> !HasEmail(users[j], email)
  }

  predicate UniqueEmails(users: seq<Doc>)
  {
    forall i, j :: 0 <= i < j < |users| && "email" in users[i] && "email" in users[j] ==>
      users[i]["email"] != users[j]["email"]
  }

  /** What `updateOne` reports: how many documents matched the filter, how
      many were actually changed, and the position of an upserted one. */
  datatype UpdateResult = UpdateResult(matchedCount: nat, modifiedCount: nat, upsertedId: Option<nat>)

  /** `updateOne({email}, {$set: {role: "admin"}})` without upsert. */
  function Promote(users: seq<Doc>, email: string): (res: (UpdateResult, seq<Doc>))
    ensures |res.1| == |users| && res.0.upsertedId == None
    ensures res.0.matchedCount == 1 <==> exists d :: d in users && HasEmail(d, email)
    ensures res.0.matchedCount <= 1 && res.0.modifiedCount <= res.0.matchedCount
    ensures res.0.modifiedCount == 1 <==>
      FindUser(users, email).Some? && !IsAdmin(users[FindUser(users, email).value])
    ensures forall i :: 0 <= i < |users| && FindUser(users, email) != Some(i) ==> res.1[i] == users[i]
  {
    match FindUser(users, email)
    case None => (UpdateResult(0, 0, None), users)
    case Some(i) =>
      (UpdateResult(1, if IsAdmin(users[i]) then 0 else 1, None), users[i := users[i]["role" := "admin"]])
  }

  /** `updateOne({email}, {$set: body}, {upsert: true})`: merge the body into the
      first profile with that email, or insert `{email}` merged with the body. */
  function Upsert(users: seq<Doc>, email: string, body: Doc): (res: (UpdateResult, seq<Doc>))
    ensures res.0.matchedCount == 1 <==> exists d :: d in users && HasEmail(d, email)
    ensures res.0.matchedCount <= 1
    ensures res.0.upsertedId.Some? <==> res.0.matchedCount == 0
    ensures res.0.upsertedId.Some? ==> res.0.upsertedId.value == |users|
    ensures |res.1| == |users| + (if res.0.matchedCount == 0 then 1 else 0)
    ensures forall i :: 0 <= i < |users| && FindUser(users, email) != Some(i) ==> res.1[i] == users[i]
  {
    match FindUser(users, email)
    case Some(i) =>
      var merged := users[i] + body;
      (UpdateResult(1, if merged == users[i] then 0 else 1, None), users[i := merged])
    case None =>
      (UpdateResult(0, 0, Some(|users|)), users + [map["email" := email] + body])
  }

  /** Promotion makes the first profile with the email an administrator, keeps
      every other field of it, and leaves it where the email finds it. */
  lemma PromoteGrantsAdmin(users: seq<Doc>, email: string)
    requires exists d :: d in users && HasEmail(d, email)
    ensures
      var after := Promote(users, email).1;
      var i := FindUser(users, email);
      i.Some? && FindUser(after, email) == i &&
      IsAdmin(after[i.value]) && after[i.value] - {"role"} == users[i.value] - {"role"}
  {
    var i := FindUser(users, email).value;
    var after := Promote(users, email).1;
    assert HasEmail(after[i], email);
  }

  /** Promoting twice changes nothing the second time: it matches, modifies nothing. */
  lemma PromoteIdempotent(users: seq<Doc>, email: string)
    ensures
      var (r1, after) := Promote(users, email);
      Promote(after, email) == (UpdateResult(r1.matchedCount, 0, None), after)
  {
    var after := Promote(users, email).1;
    if exists d :: d in users && HasEmail(d, email) {
      PromoteGrantsAdmin(users, email);
      var i := FindUser(users, email).value;
      assert after[i]["role" := "admin"] == after[i];
      assert after[i := after[i]] == after;
    } else {
      assert forall d :: d in after ==> !HasEmail(d, email);
    }
  }

  lemma PromoteKeepsEmailsUnique(users: seq<Doc>, email: string)
    requires UniqueEmails(users)
    ensures UniqueEmails(Promote(users, email).1)
  {
  }

  /** When the body does not rewrite the email, the upserted profile is found
      again by that email (at the same place if it existed), holds every field
      of the body, and keeps every old field the body does not mention. */
  lemma UpsertThenFind(users: seq<Doc>, email: string, body: Doc)
    requires "email" in body ==> body["email"] == email
    ensures
      var after := Upsert(users, email, body).1;
      var found := FindUser(after, email);
      found.Some? &&
      found.value == (match FindUser(users, email) case Some(i) => i case None => |users|) &&
      (forall k :: k in body ==> k in after[found.value] && after[found.value][k] == body[k]) &&
      (FindUser(users, email).Some? ==>
        forall k :: k in users[found.value] && k !in body ==>
          k in after[found.value] && after[found.value][k] == users[found.value][k])
  {
    var after := Upsert(users, email, body).1;
    match FindUser(users, email)
    case Some(i) =>
      assert after[i] == users[i] + body;
      assert HasEmail(after[i], email);
    case None =>
      var created := map["email" := email] + body;
      assert after[|users|] == created;
      assert HasEmail(created, email);
  }

  /** Whatever the body holds, the first profile with the email becomes that
      profile merged with the body; without one, `{email}` merged with the body
      is appended. */
  lemma UpsertWrites(users: seq<Doc>, email: string, body: Doc)
    ensures
      var after := Upsert(users, email, body).1;
      match FindUser(users, email)
      case Some(i) => after[i] == users[i] + body
      case None => after[|users|] == map["email" := email] + body
  {
  }

  /** The caller decides the role: after an upsert the profile is an
      administrator exactly when the body says role "admin", or, when the body
      says nothing about the role, when it already was one. */
  lemma UpsertRole(users: seq<Doc>, email: string, body: Doc)
    ensures
      var after := Upsert(users, email, body).1;
      var t := match FindUser(users, email) case Some(i) => i case None => |users|;
      t < |after| &&
      (IsAdmin(after[t]) <==>
        if "role" in body then body["role"] == "admin"
        else FindUser(users, email).Some? && IsAdmin(users[t]))
  {
  }

  lemma UpsertKeepsEmailsUnique(users: seq<Doc>, email: string, body: Doc)
    requires UniqueEmails(users)
    requires "email" in body ==> body["email"] == email
    ensures UniqueEmails(Upsert(users, email, body).1)
  {
  }
}
