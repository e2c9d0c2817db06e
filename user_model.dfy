/**
 * The User collection: one local account mirroring a Clerk identity.
 * Schema: clerkId, email and photo are required; clerkId and email are unique;
 * username, firstName and lastName are optional; createdAt defaults to the time of creation.
 */
module UserModel {
  import opened Optional

  /** Abstract MongoDB document identifier. */
  type ObjectId = nat

  datatype User = User(
    id: ObjectId,
    clerkId: string,
    email: string,
    username: Option<string>,
    photo: string,
    firstName: Option<string>,
    lastName: Option<string>,
    createdAt: nat)

  /**
   * The profile fields Clerk hands over, both from `users.getUser` and as the
   * `data` of a `user.created` webhook event.
   */
  datatype Profile = Profile(
    id: string,
    emailAddresses: seq<string>,
    username: Option<string>,
    imageUrl: string,
    firstName: Option<string>,
    lastName: Option<string>)

  /** Mongoose's `required` validator rejects a missing or empty string. */
  predicate HasRequiredFields(u: User)
  {
    u.clerkId != "" && u.email != "" && u.photo != ""
  }

  /** u shares its _id, clerkId or email with a stored user (a duplicate-key error on save). */
  predicate Clashes(users: seq<User>, u: User)
  {
    exists i | 0 <= i < |users| :: users[i].id == u.id || users[i].clerkId == u.clerkId || users[i].email == u.email
  }

  /** The schema lets u be saved next to users. */
  predicate Admits(users: seq<User>, u: User)
  {
    HasRequiredFields(u) && !Clashes(users, u)
  }

  /** Some stored user has the local _id id. */
  ghost predicate HasId(users: seq<User>, id: ObjectId)
  {
    exists j | 0 <= j < |users| :: users[j].id == id
  }

  /** The unique indexes on _id, clerkId and email. */
  ghost predicate UniqueKeys(users: seq<User>)
  {
    forall i, j | 0 <= i < j < |users| ::
      users[i].id != users[j].id && users[i].clerkId != users[j].clerkId && users[i].email != users[j].email
  }

  /** Saving an admitted user keeps the unique indexes satisfied. */
  lemma AdmitKeepsUnique(users: seq<User>, u: User)
    requires UniqueKeys(users) && Admits(users, u)
    ensures UniqueKeys(users + [u])
  {
    var all := users + [u];
    forall i, j | 0 <= i < j < |all|
      ensures all[i].id != all[j].id && all[i].clerkId != all[j].clerkId && all[i].email != all[j].email
    {
      if j == |users| {
        assert all[i] == users[i];
      }
    }
  }

  /**
   * `new User({...})` from a profile. The email is the first listed address; with no
   * address the access `[0].emailAddress` throws, so there is no user.
   */
  function FromProfile(p: Profile, id: ObjectId, now: nat): (r: Option<User>)
    ensures r.Some? <==> |p.emailAddresses| > 0
    ensures r.Some? ==> r.value.id == id && r.value.createdAt == now
    ensures r.Some? ==> r.value.clerkId == p.id && r.value.email == p.emailAddresses[0]
    ensures r.Some? ==> r.value.photo == p.imageUrl && r.value.username == p.username
    ensures r.Some? ==> r.value.firstName == p.firstName && r.value.lastName == p.lastName
  {
    if |p.emailAddresses| == 0 then None
    else Some(User(id, p.id, p.emailAddresses[0], p.username, p.imageUrl, p.firstName, p.lastName, now))
  }

  /** Which profiles give a user the schema's required validators accept. */
  lemma FromProfileRequiredFields(p: Profile, id: ObjectId, now: nat)
    requires |p.emailAddresses| > 0
    ensures FromProfile(p, id, now).Some?
    ensures HasRequiredFields(FromProfile(p, id, now).value) <==>
              p.id != "" && p.emailAddresses[0] != "" && p.imageUrl != ""
  {
  }

  /** `User.findOne({ clerkId })`. */
  function FindByClerkId(users: seq<User>, clerkId: string): (r: Option<User>)
    ensures r.Some? <==> exists i | 0 <= i < |users| :: users[i].clerkId == clerkId
    ensures r.Some? ==> r.value in users && r.value.clerkId == clerkId
  {
    if users == [] then None
    else if users[0].clerkId == clerkId then Some(users[0])
    else
      var r := FindByClerkId(users[1..], clerkId);
      assert forall i | 1 <= i < |users| :: users[i] == users[1..][i - 1];
      r
  }

  /** Under the unique index, findOne returns the one user holding that clerkId. */
  lemma FindsTheUniqueUser(users: seq<User>, u: User)
    requires UniqueKeys(users) && u in users
    ensures FindByClerkId(users, u.clerkId) == Some(u)
  {
    var r := FindByClerkId(users, u.clerkId);
    var i :| 0 <= i < |users| && users[i] == u;
    var j :| 0 <= j < |users| && users[j] == r.value;
    assert users[i].clerkId == users[j].clerkId;
  }
}
