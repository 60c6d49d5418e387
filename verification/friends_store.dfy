/** The friends store (store/friends-store.ts): accepted friends, pending friend requests and an
    activity feed. The id suffixes (`Date.now()`) and timestamps (`new Date().toISOString()`) are
    parameters; the demo fixtures the store starts from are constructor arguments. */
module Friends {
  import opened Common
  import opened Types

  datatype FriendStatus = Pending | Accepted | Blocked

  datatype Friend = Friend(
    id: string,
    name: string,
    email: string,
    profilePicture: Option<string>,
    status: FriendStatus,
    addedAt: string,
    lastActive: Option<string>,
    streak: Option<int>,
    totalWorkouts: Option<int>,
    currentGoals: Option<NutritionGoals>)

  datatype ActivityKind = WorkoutActivity | MealActivity | GoalAchieved | StreakActivity

  datatype FriendActivity = FriendActivity(
    id: string,
    friendId: string,
    friendName: string,
    friendProfilePicture: Option<string>,
    kind: ActivityKind,
    description: string,
    timestamp: string)

  /** The argument of `addFriendActivity`: an activity without its id. */
  datatype ActivityDraft = ActivityDraft(
    friendId: string,
    friendName: string,
    friendProfilePicture: Option<string>,
    kind: ActivityKind,
    description: string,
    timestamp: string)

  /** The most activities the feed keeps. */
  const FeedLimit: int := 50

  /** The number of activities `getFriendActivities` returns when no limit is given. */
  const DefaultActivityLimit: int := 10

  /** `email.split('@')[0]`: the text before the first '@', or the whole string without one. */
  function EmailPrefix(email: string): (r: string)
    ensures r <= email
    ensures '@' !in r
    ensures |r| < |email| ==> email[|r|] == '@'
  {
    TextBefore(email, '@')
  }

  /** The display name of `user@host` is `user`. */
  lemma EmailPrefixOf(user: string, host: string)
    requires '@' !in user
    ensures EmailPrefix(user + "@" + host) == user
  {
    TextBeforeJoin(user, '@', host);
  }

  /** Every friend in the list has the given status. */
  predicate AllWithStatus(fs: seq<Friend>, status: FriendStatus) {
    forall i :: 0 <= i < |fs| ==> fs[i].status == status
  }

  /** `fs.filter(f => f.id !== id)` */
  function WithoutId(fs: seq<Friend>, id: string): (r: seq<Friend>)
    ensures forall f :: f in r <==> f in fs && f.id != id
    ensures forall i :: 0 <= i < |r| ==> r[i].id != id
    ensures |r| <= |fs|
  {
    Filter(fs, (f: Friend) => f.id != id)
  }

  /** The survivors keep their order: removing from a concatenation is concatenating the
      removals. */
  lemma WithoutIdAppend(a: seq<Friend>, b: seq<Friend>, id: string)
    ensures WithoutId(a + b, id) == WithoutId(a, id) + WithoutId(b, id)
  {
    FilterAppend(a, b, (f: Friend) => f.id != id);
  }

  /** Removing an id that no friend carries changes nothing. */
  lemma WithoutAbsentId(fs: seq<Friend>, id: string)
    requires forall i :: 0 <= i < |fs| ==> fs[i].id != id
    ensures WithoutId(fs, id) == fs
  {
    FilterKeepsAll(fs, (f: Friend) => f.id != id);
  }

  /** Removing an id twice is removing it once. */
  lemma WithoutIdIdempotent(fs: seq<Friend>, id: string)
    ensures WithoutId(WithoutId(fs, id), id) == WithoutId(fs, id)
  {
    WithoutAbsentId(WithoutId(fs, id), id);
  }

  /** Removing an id keeps the statuses of the survivors. */
  lemma WithoutIdKeepsStatus(fs: seq<Friend>, id: string, status: FriendStatus)
    requires AllWithStatus(fs, status)
    ensures AllWithStatus(WithoutId(fs, id), status)
  {
    var r := WithoutId(fs, id);
    forall i | 0 <= i < |r| ensures r[i].status == status {
      assert r[i] in fs;
    }
  }

  /** `friends.find(f => f.id === id)` */
  function FindById(fs: seq<Friend>, id: string): (r: Option<Friend>)
    ensures r.None? <==> forall i :: 0 <= i < |fs| ==> fs[i].id != id
    ensures r.Some? ==> exists i :: 0 <= i < |fs| && fs[i] == r.value && r.value.id == id &&
                         forall j :: 0 <= j < i ==> fs[j].id != id
  {
    Find(fs, (f: Friend) => f.id == id)
  }

  /** `[activity, ...feed].slice(0, 50)` */
  function PushActivity(feed: seq<FriendActivity>, activity: FriendActivity): (r: seq<FriendActivity>)
    ensures |r| >= 1 && r[0] == activity
    ensures |r| == if |feed| + 1 < FeedLimit then |feed| + 1 else FeedLimit
    ensures r[1..] <= feed
  {
    SliceTo([activity] + feed, FeedLimit)
  }

  /** A feed that was at most 50 long loses its last item only when it was full. */
  lemma PushActivityKeepsAllBelowLimit(feed: seq<FriendActivity>, activity: FriendActivity)
    requires |feed| < FeedLimit
    ensures PushActivity(feed, activity) == [activity] + feed
  {
  }

  /** `feed.slice(0, limit)` with `limit` defaulting to 10. */
  function ActivitiesUpTo(feed: seq<FriendActivity>, limit: Option<int>): (r: seq<FriendActivity>)
    ensures r <= feed
    ensures limit.None? ==> |r| == if |feed| < DefaultActivityLimit then |feed| else DefaultActivityLimit
    ensures limit.Some? && limit.value >= 0 ==> |r| == if |feed| < limit.value then |feed| else limit.value
    ensures limit.Some? && limit.value < 0 ==> |r| == if |feed| + limit.value < 0 then 0 else |feed| + limit.value
  {
    SliceTo(feed, if limit.Some? then limit.value else DefaultActivityLimit)
  }

  class FriendsStore {
    var friends: seq<Friend>
    var friendRequests: seq<Friend>
    var friendActivities: seq<FriendActivity>

    /** Friends are accepted and requests are pending. */
    ghost predicate Valid()
      reads this
    {
      AllWithStatus(friends, Accepted) && AllWithStatus(friendRequests, Pending)
    }

    /** The store starts from the demo fixtures: accepted friends, pending requests, a feed. */
    constructor (seedFriends: seq<Friend>, seedRequests: seq<Friend>, seedActivities: seq<FriendActivity>)
      requires AllWithStatus(seedFriends, Accepted) && AllWithStatus(seedRequests, Pending)
      ensures Valid()
      ensures friends == seedFriends && friendRequests == seedRequests && friendActivities == seedActivities
    {
      friends := seedFriends;
      friendRequests := seedRequests;
      friendActivities := seedActivities;
    }

    /** `addFriend(email)`: appends a pending request named after the email's local part, with
        id `friend_<stamp>`, and reports success. */
    method AddFriend(email: string, stamp: string, addedAt: string) returns (ok: bool)
      requires Valid()
      modifies this
      ensures Valid()
      ensures ok
      ensures friendRequests == old(friendRequests) +
        [Friend("friend_" + stamp, EmailPrefix(email), email, None, Pending, addedAt, None, None, None, None)]
      ensures unchanged(this`friends, this`friendActivities)
    {
      var mockUser := Friend("friend_" + stamp, EmailPrefix(email), email, None, Pending, addedAt, None, None, None, None);
      friendRequests := friendRequests + [mockUser];
      return true;
    }

    /** `acceptFriendRequest(friendId)`: the first request with the id joins the friends as
        accepted and every request with the id is dropped; an unknown id changes nothing. */
    method AcceptFriendRequest(friendId: string)
      requires Valid()
      modifies this
      ensures Valid()
      ensures FindById(old(friendRequests), friendId).None? ==> unchanged(this)
      ensures FindById(old(friendRequests), friendId).Some? ==>
        && friends == old(friends) + [FindById(old(friendRequests), friendId).value.(status := Accepted)]
        && friendRequests == WithoutId(old(friendRequests), friendId)
      ensures unchanged(this`friendActivities)
    {
      var request := FindById(friendRequests, friendId);
      if request.None? {
        return;
      }
      var newFriend := request.value.(status := Accepted);
      WithoutIdKeepsStatus(friendRequests, friendId, Pending);
      friends, friendRequests := friends + [newFriend], WithoutId(friendRequests, friendId);
    }

    /** `rejectFriendRequest(friendId)`: drops every request with the id. */
    method RejectFriendRequest(friendId: string)
      requires Valid()
      modifies this
      ensures Valid()
      ensures friendRequests == WithoutId(old(friendRequests), friendId)
      ensures unchanged(this`friends, this`friendActivities)
    {
      WithoutIdKeepsStatus(friendRequests, friendId, Pending);
      friendRequests := WithoutId(friendRequests, friendId);
    }

    /** `removeFriend(friendId)`: drops every friend with the id. */
    method RemoveFriend(friendId: string)
      requires Valid()
      modifies this
      ensures Valid()
      ensures friends == WithoutId(old(friends), friendId)
      ensures unchanged(this`friendRequests, this`friendActivities)
    {
      WithoutIdKeepsStatus(friends, friendId, Accepted);
      friends := WithoutId(friends, friendId);
    }

    /** `getFriendById(friendId)`: the first friend with the id. It is never a pending request. */
    function GetFriendById(friendId: string): (r: Option<Friend>)
      reads this
      ensures r.None? <==> forall i :: 0 <= i < |friends| ==> friends[i].id != friendId
      ensures r.Some? ==> exists i :: 0 <= i < |friends| && friends[i] == r.value && r.value.id == friendId &&
                           forall j :: 0 <= j < i ==> friends[j].id != friendId
      ensures r.Some? && Valid() ==> r.value.status == Accepted
    {
      FindById(friends, friendId)
    }

    /** `addFriendActivity(activity)`: the activity, with id `activity_<stamp>`, goes to the
        front of the feed, which keeps at most 50 items. */
    method AddFriendActivity(activity: ActivityDraft, stamp: string)
      modifies this
      ensures friendActivities == PushActivity(old(friendActivities),
        FriendActivity("activity_" + stamp, activity.friendId, activity.friendName,
          activity.friendProfilePicture, activity.kind, activity.description, activity.timestamp))
      ensures |friendActivities| <= FeedLimit
      ensures unchanged(this`friends, this`friendRequests)
    {
      var newActivity := FriendActivity("activity_" + stamp, activity.friendId, activity.friendName,
        activity.friendProfilePicture, activity.kind, activity.description, activity.timestamp);
      friendActivities := PushActivity(friendActivities, newActivity);
    }

    /** `getFriendActivities(limit = 10)`. */
    function GetFriendActivities(limit: Option<int>): (r: seq<FriendActivity>)
      reads this
      ensures r == ActivitiesUpTo(friendActivities, limit)
      ensures r <= friendActivities
      ensures limit.None? ==> |r| == if |friendActivities| < DefaultActivityLimit then |friendActivities| else DefaultActivityLimit
      ensures limit.Some? && limit.value >= 0 ==>
        |r| == if |friendActivities| < limit.value then |friendActivities| else limit.value
      ensures limit.Some? && limit.value < 0 ==>
        |r| == if |friendActivities| + limit.value < 0 then 0 else |friendActivities| + limit.value
    {
      ActivitiesUpTo(friendActivities, limit)
    }
  }
}
