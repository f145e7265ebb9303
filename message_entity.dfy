/**
 * One formatting annotation of a message (a Telegram `MessageEntity`) and
 * its decoding from the JSON object of an incoming update.
 */
module MessageEntity {
  import opened Wrappers
  import opened PyValue

  /**
   * A stored entity.  `tmUserId` is the mentioned user of a `text_mention`
   * (present exactly when the entity has a user); `url` and `language` are
   * `None` when the update did not carry them.
   */
  datatype Entity = Entity(
    botId: int, chatId: int, messageId: int,
    entityType: string, offset: int, length: int,
    url: Option<string>, tmUserId: Option<int>, language: Option<string>)

  /** An optional string field: absent or `null` is `None`. */
  function OptionalStr(d: map<string, Value>, k: string): Result<Option<string>, DecodeError> {
    match Get(d, k)
    case Null => Ok(None)
    case Str(s) => Ok(Some(s))
    case _ => Err(TypeMismatch(k))
  }

  /** The mentioned user: only a truthy `user` object is decoded, and it must carry an `id`. */
  function MentionedUser(d: map<string, Value>): Result<Option<int>, DecodeError> {
    var u := Get(d, "user");
    if !Truthy(u) then Ok(None)
    else if !u.Dict? then Err(TypeMismatch("user"))
    else if "id" !in u.entries then Err(KeyError("id"))
    else if !u.entries["id"].Int? then Err(TypeMismatch("id"))
    else Ok(Some(u.entries["id"].i))
  }

  /**
   * `TelegramMessageEntity.from_dict`: `type`, `offset` and `length` are
   * required and copied as they are (no range check), the optional fields
   * follow, and the message key comes from the arguments.  Keys are read in
   * the source's order, so the first missing one is the one reported.
   */
  function FromDict(d: map<string, Value>, botId: int, chatId: int, messageId: int): (r: Result<Entity, DecodeError>)
    ensures "type" !in d ==> r == Err(KeyError("type"))
    ensures "type" in d && d["type"].Str? && "offset" !in d ==> r == Err(KeyError("offset"))
    ensures "type" in d && d["type"].Str? && "offset" in d && d["offset"].Int? && "length" !in d ==> r == Err(KeyError("length"))
    ensures r.Ok? ==> && r.value.botId == botId && r.value.chatId == chatId && r.value.messageId == messageId
                      && Str(r.value.entityType) == d["type"]
                      && Int(r.value.offset) == d["offset"]
                      && Int(r.value.length) == d["length"]
    ensures r.Ok? ==> Get(d, "url") == (if r.value.url.Some? then Str(r.value.url.value) else Null)
    ensures r.Ok? ==> Get(d, "language") == (if r.value.language.Some? then Str(r.value.language.value) else Null)
    ensures r.Ok? ==> (r.value.tmUserId.Some? <==> Truthy(Get(d, "user")))
    ensures r.Ok? && r.value.tmUserId.Some? ==>
              var u := Get(d, "user");
              u.Dict? && "id" in u.entries && u.entries["id"] == Int(r.value.tmUserId.value)
  {
    if "type" !in d then Err(KeyError("type"))
    else if !d["type"].Str? then Err(TypeMismatch("type"))
    else if "offset" !in d then Err(KeyError("offset"))
    else if !d["offset"].Int? then Err(TypeMismatch("offset"))
    else if "length" !in d then Err(KeyError("length"))
    else if !d["length"].Int? then Err(TypeMismatch("length"))
    else
      match OptionalStr(d, "url")
      case Err(e) => Err(e)
      case Ok(url) =>
        match MentionedUser(d)
        case Err(e) => Err(e)
        case Ok(user) =>
          match OptionalStr(d, "language")
          case Err(e) => Err(e)
          case Ok(language) =>
            Ok(Entity(botId, chatId, messageId, d["type"].s, d["offset"].i, d["length"].i, url, user, language))
  }

  /** The JSON object Telegram sends for an entity: optional fields are left out when absent. */
  function ToDict(e: Entity): map<string, Value> {
    var base := map["type" := Str(e.entityType), "offset" := Int(e.offset), "length" := Int(e.length)];
    var withUrl := if e.url.Some? then base["url" := Str(e.url.value)] else base;
    var withUser := if e.tmUserId.Some? then withUrl["user" := Dict(map["id" := Int(e.tmUserId.value)])] else withUrl;
    if e.language.Some? then withUser["language" := Str(e.language.value)] else withUser
  }

  /** Decoding the JSON form of an entity gives the entity back. */
  lemma DecodeEncode(e: Entity)
    ensures FromDict(ToDict(e), e.botId, e.chatId, e.messageId) == Ok(e)
  {
    var d := ToDict(e);
    assert d["type"] == Str(e.entityType) && d["offset"] == Int(e.offset) && d["length"] == Int(e.length);
    assert OptionalStr(d, "url") == Ok(e.url);
    assert OptionalStr(d, "language") == Ok(e.language);
    if e.tmUserId.Some? {
      assert |d["user"].entries| == 1 by {
        assert d["user"].entries.Keys == {"id"};
      }
    }
    assert MentionedUser(d) == Ok(e.tmUserId);
  }

  /** No range validation: any offset and length, negative ones included, are accepted. */
  lemma AnyRangeAccepted(t: string, offset: int, length: int, botId: int, chatId: int, messageId: int)
    ensures FromDict(map["type" := Str(t), "offset" := Int(offset), "length" := Int(length)], botId, chatId, messageId)
            == Ok(Entity(botId, chatId, messageId, t, offset, length, None, None, None))
  {
    var d := map["type" := Str(t), "offset" := Int(offset), "length" := Int(length)];
    assert "url" !in d && "user" !in d && "language" !in d;
  }
}
