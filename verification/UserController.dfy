/** The user controller: the profile-update whitelist and the eco-stats read. */
module UserController {
  import opened Wrappers
  import opened Ids
  import opened Users
  import opened Store
  import opened ErrorHandler

  const ProfileKeys: set<string> := {"name", "email", "bio", "location", "phone"}

  /** `fieldsToUpdate`: the five profile keys the body carries, values verbatim
      (null included). A key the JSON body lacks is `undefined` and is dropped. */
  function ProfileFields(body: map<string, Json>): (fields: map<string, Json>)
    ensures fields.Keys == body.Keys * ProfileKeys
    ensures forall k :: k in fields ==> fields[k] == body[k]
  {
    map k | k in body && k in ProfileKeys :: body[k]
  }

  /** `updateProfile`: only whitelisted fields reach the user, so the role and the
      eco-stats never change; an unknown user yields a null payload. */
  function UpdateProfile(db: Db, userId: UserId, body: map<string, Json>): (r: (Db, Reply<Option<User>>))
    ensures userId !in db.users ==> r == (db, Ok(200, None))
    ensures userId in db.users ==>
      && r.1.Ok? && r.1.status == 200 && r.1.data.Some?
      && var u := r.1.data.value;
         && u.ecoStats == db.users[userId].ecoStats && u.role == db.users[userId].role
         && (forall k :: k in body && k in ProfileKeys ==> k in u.profile && u.profile[k] == body[k])
         && (forall k :: k in u.profile && k !in ProfileKeys ==> k in db.users[userId].profile &&
                                                                 u.profile[k] == db.users[userId].profile[k])
         && (forall k :: k in db.users[userId].profile && k !in body ==>
                           k in u.profile && u.profile[k] == db.users[userId].profile[k])
         && r.0 == db.(users := db.users[userId := u])
  {
    if userId !in db.users then (db, Ok(200, None))
    else
      var user := db.users[userId];
      var updated := user.(profile := user.profile + ProfileFields(body));
      (db.(users := db.users[userId := updated]), Ok(200, Some(updated)))
  }

  /** `getEcoStats`: the stored stats of the user; reading them of a missing user
      throws a TypeError, answered with 500. */
  function GetEcoStats(db: Db, userId: UserId): (r: Reply<EcoStats>)
    ensures userId in db.users ==> r == Ok(200, db.users[userId].ecoStats)
    ensures userId !in db.users ==> r.Err? && r.status == 500
  {
    if userId in db.users then Ok(200, db.users[userId].ecoStats)
    else
      var h := HandleError(ThrownError(None, "Cannot read properties of null (reading 'ecoStats')", ""), 200, None);
      Err(h.status, h.message)
  }

  /** Reading the stats after `updateEcoStats` gives the credited stats of that
      user, and every other user reads as before. */
  lemma EcoStatsAfterCredit(db: Db, userId: UserId, other: UserId, delta: map<string, int>)
    requires UpdateEcoStats(db.users, userId, delta).Success?
    ensures var after := db.(users := UpdateEcoStats(db.users, userId, delta).value);
      && GetEcoStats(after, userId) == Ok(200, Credit(db.users[userId].ecoStats, delta))
      && (other != userId ==> GetEcoStats(after, other) == GetEcoStats(db, other))
  {
  }
}
