/**
 * A Telegram user as the bot stores it, and the user's standing with each
 * bot: the `bot_subscriber` and `bot_admin` tables, keyed by
 * `(bot_id, user_id)`, each row carrying an `active` flag.
 */
module TelegramUsers {
  import opened Wrappers
  import opened PyValue

  /** The primary key of a `bot_subscriber` or `bot_admin` row: `(bot_id, user_id)`. */
  type Key = (int, int)

  /** The subscriber row `subscribe` returns. */
  datatype BotSubscriber = BotSubscriber(botId: int, userId: int, active: bool)

  /** The admin row `set_admin` returns. */
  datatype BotAdmin = BotAdmin(botId: int, userId: int, active: bool)

  /** A flag table lookup: `False` without a row, the row's `active` otherwise. */
  function Flag(t: map<Key, bool>, k: Key): (r: bool)
    ensures r ==> k in t
    ensures k in t ==> r == t[k]
  {
    if k !in t then false else t[k]
  }

  /** The eight profile columns `from_dict` fills, each the JSON value as it arrived or `None`. */
  datatype UserProfile = UserProfile(
    isBot: Value, firstName: Value, lastName: Value, username: Value,
    languageCode: Value, canJoinGroups: Value, canReadAllGroupMessages: Value,
    supportsInlineQueries: Value)

  /** The profile `from_dict` copies out of `d`: `d.get(field, None)` for each column. */
  function ProfileOf(d: map<string, Value>): UserProfile {
    UserProfile(
      Get(d, "is_bot"), Get(d, "first_name"), Get(d, "last_name"), Get(d, "username"),
      Get(d, "language_code"), Get(d, "can_join_groups"), Get(d, "can_read_all_group_messages"),
      Get(d, "supports_inline_queries"))
  }

  /** The JSON object of a user with every profile field present (`null` where the value is `None`). */
  function UserDict(id: int, p: UserProfile): map<string, Value> {
    map["id" := Int(id), "is_bot" := p.isBot, "first_name" := p.firstName, "last_name" := p.lastName,
        "username" := p.username, "language_code" := p.languageCode, "can_join_groups" := p.canJoinGroups,
        "can_read_all_group_messages" := p.canReadAllGroupMessages,
        "supports_inline_queries" := p.supportsInlineQueries]
  }

  /** Reading the profile back out of the JSON form of a user gives the profile. */
  lemma ProfileRoundTrip(id: int, p: UserProfile)
    ensures ProfileOf(UserDict(id, p)) == p
  {
    var d := UserDict(id, p);
    assert d["is_bot"] == p.isBot && d["first_name"] == p.firstName && d["last_name"] == p.lastName;
    assert d["username"] == p.username && d["language_code"] == p.languageCode;
    assert d["can_join_groups"] == p.canJoinGroups && d["can_read_all_group_messages"] == p.canReadAllGroupMessages;
    assert d["supports_inline_queries"] == p.supportsInlineQueries;
  }

  /** A dict with only an `id` leaves every profile field `None`. */
  lemma BareProfile(id: Value)
    ensures ProfileOf(map["id" := id]) == UserProfile(Null, Null, Null, Null, Null, Null, Null, Null)
  {
    var d := map["id" := id];
    assert "is_bot" !in d && "first_name" !in d && "last_name" !in d && "username" !in d;
    assert "language_code" !in d && "can_join_groups" !in d;
    assert "can_read_all_group_messages" !in d && "supports_inline_queries" !in d;
  }

  /** The tables the user operations read and write. */
  class UserTables {
    /** `telegram_user`, by primary key. */
    var users: map<int, TelegramUser>
    /** `bot_subscriber`: `(bot_id, user_id) -> active`. */
    var subscribers: map<Key, bool>
    /** `bot_admin`: `(bot_id, user_id) -> active`. */
    var admins: map<Key, bool>

    constructor ()
      ensures users == map[] && subscribers == map[] && admins == map[]
    {
      users := map[];
      subscribers := map[];
      admins := map[];
    }

    /** Every stored user sits under its own id. */
    ghost predicate Valid()
      reads this, users.Values
    {
      forall k :: k in users ==> users[k].id == k
    }
  }

  class TelegramUser {
    const id: int
    var isBot: Value
    var firstName: Value
    var lastName: Value
    var username: Value
    var languageCode: Value
    var canJoinGroups: Value
    var canReadAllGroupMessages: Value
    var supportsInlineQueries: Value

    /** `TelegramUser(id=...)`: a new user whose profile columns are all `None`. */
    constructor (id: int)
      ensures this.id == id
      ensures Profile() == UserProfile(Null, Null, Null, Null, Null, Null, Null, Null)
    {
      this.id := id;
      isBot, firstName, lastName, username := Null, Null, Null, Null;
      languageCode, canJoinGroups, canReadAllGroupMessages, supportsInlineQueries := Null, Null, Null, Null;
    }

    function Profile(): UserProfile
      reads this
    {
      UserProfile(isBot, firstName, lastName, username, languageCode, canJoinGroups,
                  canReadAllGroupMessages, supportsInlineQueries)
    }

    /** `is_admin(bot_id)`: the `active` flag of the admin row for this user and bot, `False` without one. */
    function IsAdmin(db: UserTables, botId: int): (r: bool)
      reads db
      ensures r <==> (botId, id) in db.admins && db.admins[(botId, id)]
    {
      Flag(db.admins, (botId, id))
    }

    /** `is_subscriber(bot_id)`: the `active` flag of the subscriber row, `False` without one. */
    function IsSubscriber(db: UserTables, botId: int): (r: bool)
      reads db
      ensures r <==> (botId, id) in db.subscribers && db.subscribers[(botId, id)]
    {
      Flag(db.subscribers, (botId, id))
    }

    /**
     * `subscribe(bot_id)`: an active row is created when there is none and
     * an inactive one is reactivated; an active one is left alone.  Only
     * the `(bot_id, id)` row changes.
     */
    method Subscribe(db: UserTables, botId: int) returns (sub: BotSubscriber)
      modifies db
      ensures sub == BotSubscriber(botId, id, true)
      ensures db.subscribers == old(db.subscribers)[(botId, id) := true]
      ensures old(IsSubscriber(db, botId)) ==> db.subscribers == old(db.subscribers)
      ensures db.admins == old(db.admins) && db.users == old(db.users)
      ensures IsSubscriber(db, botId)
      ensures forall k :: k != (botId, id) ==> Flag(db.subscribers, k) == Flag(old(db.subscribers), k)
    {
      var key := (botId, id);
      if key !in db.subscribers {
        db.subscribers := db.subscribers[key := true];
      } else if !db.subscribers[key] {
        db.subscribers := db.subscribers[key := true];
      }
      sub := BotSubscriber(botId, id, true);
    }

    /**
     * `unsubscribe(bot_id)`: an active row is deactivated; no row is ever
     * created, and only the `(bot_id, id)` row changes.
     */
    method Unsubscribe(db: UserTables, botId: int)
      modifies db
      ensures db.subscribers == if (botId, id) in old(db.subscribers) then old(db.subscribers)[(botId, id) := false] else old(db.subscribers)
      ensures db.subscribers.Keys == old(db.subscribers).Keys
      ensures db.admins == old(db.admins) && db.users == old(db.users)
      ensures !IsSubscriber(db, botId)
      ensures forall k :: k != (botId, id) ==> Flag(db.subscribers, k) == Flag(old(db.subscribers), k)
    {
      var key := (botId, id);
      if key in db.subscribers && db.subscribers[key] {
        db.subscribers := db.subscribers[key := false];
      }
    }

    /** `set_admin(bot_id)`: the admin row is upserted with `active=True`. */
    method SetAdmin(db: UserTables, botId: int) returns (adm: BotAdmin)
      modifies db
      ensures adm == BotAdmin(botId, id, true)
      ensures db.admins == old(db.admins)[(botId, id) := true]
      ensures db.subscribers == old(db.subscribers) && db.users == old(db.users)
      ensures IsAdmin(db, botId)
    {
      db.admins := db.admins[(botId, id) := true];
      adm := BotAdmin(botId, id, true);
    }

    /** `revoke_admin(bot_id)`: the admin row is upserted with `active=False`, so a row exists afterwards even if none did. */
    method RevokeAdmin(db: UserTables, botId: int)
      modifies db
      ensures db.admins == old(db.admins)[(botId, id) := false]
      ensures (botId, id) in db.admins && !IsAdmin(db, botId)
      ensures db.subscribers == old(db.subscribers) && db.users == old(db.users)
    {
      db.admins := db.admins[(botId, id) := false];
    }
  }

  /**
   * `TelegramUser.from_dict(d)`: the user stored under `d["id"]`, or a new
   * unsaved one, with its eight profile columns overwritten from `d`.  A
   * missing `id` raises `KeyError` before anything changes.
   */
  method UserFromDict(db: UserTables, d: map<string, Value>) returns (r: Result<TelegramUser, DecodeError>)
    requires db.Valid()
    modifies db.users.Values
    ensures "id" !in d ==> r == Err(KeyError("id"))
    ensures "id" in d && !d["id"].Int? ==> r == Err(TypeMismatch("id"))
    ensures r.Err? ==> forall u :: u in db.users.Values ==> u.Profile() == old(u.Profile())
    ensures r.Ok? ==> "id" in d && d["id"] == Int(r.value.id) && r.value.Profile() == ProfileOf(d)
    ensures r.Ok? ==> if r.value.id in db.users then r.value == db.users[r.value.id] else fresh(r.value)
    ensures r.Ok? ==> forall u :: u in db.users.Values && u != r.value ==> u.Profile() == old(u.Profile())
  {
    if "id" !in d {
      return Err(KeyError("id"));
    }
    if !d["id"].Int? {
      return Err(TypeMismatch("id"));
    }
    var id := d["id"].i;
    var user: TelegramUser;
    if id in db.users {
      user := db.users[id];
    } else {
      user := new TelegramUser(id);
    }
    user.isBot := Get(d, "is_bot");
    user.firstName := Get(d, "first_name");
    user.lastName := Get(d, "last_name");
    user.username := Get(d, "username");
    user.languageCode := Get(d, "language_code");
    user.canJoinGroups := Get(d, "can_join_groups");
    user.canReadAllGroupMessages := Get(d, "can_read_all_group_messages");
    user.supportsInlineQueries := Get(d, "supports_inline_queries");
    r := Ok(user);
  }
}
