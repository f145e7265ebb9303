/**
 * Telegram chats and chat types as the bot stores them.  A chat type keeps
 * the Bot API name (`private`, `group`, `supergroup`, `channel`) together
 * with a one-letter code; a group chat can be made an admin channel (the
 * bot listens to commands there) or a forward channel of a bot, recorded in
 * the `bot_admin_chat` and `bot_forward_chat` tables as `(bot_id, chat_id)`
 * pairs.
 */
module TelegramChats {
  import opened Wrappers
  import opened PyStr
  import opened PyValue

  /** `_type_to_code`. */
  const TypeToCode: map<string, string> := map["private" := "p", "group" := "g", "supergroup" := "s", "channel" := "c"]

  /**
   * `EInvalidChatType` with its message and arguments, `KeyError` for an
   * unknown chat type name or a missing `id`, `TypeMismatch` for an `id`
   * that is not an integer, and `EInappropriateChatType` for a channel
   * operation on a chat that is not a group.
   */
  datatype ChatError =
    | EInvalidChatType(message: string, args: seq<Value>)
    | KeyError(key: string)
    | TypeMismatch(key: string)
    | EInappropriateChatType(message: string)

  /** `value.strip().lower()`. */
  function Normalize(value: string): string {
    Lower(Strip(value))
  }

  /** The codes of the chat types that are groups: `g` and `s`. */
  predicate IsGroupCode(typeCode: Option<string>) {
    typeCode == Some("g") || typeCode == Some("s")
  }

  /** Every code is one letter, and only `group` and `supergroup` map to group codes. */
  lemma TypeCodes()
    ensures forall n :: n in TypeToCode ==> |TypeToCode[n]| == 1
    ensures forall n :: n in TypeToCode ==> (IsGroupCode(Some(TypeToCode[n])) <==> n == "group" || n == "supergroup")
    ensures forall n, m :: n in TypeToCode && m in TypeToCode && TypeToCode[n] == TypeToCode[m] ==> n == m
  {
  }

  lemma {:induction false} LowerIdempotent(s: string)
    ensures Lower(Lower(s)) == Lower(s)
  {
    var t := Lower(s);
    assert forall k :: 0 <= k < |t| ==> !IsUpper(t[k]);
  }

  /** Normalising a normalised name changes nothing. */
  lemma NormalizeIdempotent(value: string)
    ensures Normalize(Normalize(value)) == Normalize(value)
  {
    var t := Lower(Strip(value));
    var s := Strip(value);
    if |t| > 0 {
      assert t[0] == if IsUpper(s[0]) then (s[0] as int + 32) as char else s[0];
      assert t[|t| - 1] == if IsUpper(s[|s| - 1]) then (s[|s| - 1] as int + 32) as char else s[|s| - 1];
    }
    StripUnchanged(t);
    LowerIdempotent(s);
  }

  /** A chat type code stripped and lowered is itself. */
  lemma CodeIsNormal(n: string)
    requires n in TypeToCode
    ensures Normalize(TypeToCode[n]) == TypeToCode[n]
  {
    var c := TypeToCode[n];
    StripUnchanged(c);
  }

  /**
   * The code `TelegramChatType(name)` derives from `name`, or what it
   * raises: `EInvalidChatType` for a falsy or non-string name, `KeyError`
   * for a name that is not known after stripping and lowering.
   */
  function CodeOf(name: Value): (r: Result<string, ChatError>)
    ensures !Truthy(name) || !name.Str? ==> r == Err(EInvalidChatType("Unknown chat type", [name]))
    ensures Truthy(name) && name.Str? && Normalize(name.s) !in TypeToCode ==> r == Err(ChatError.KeyError(Normalize(name.s)))
    ensures Truthy(name) && name.Str? && Normalize(name.s) in TypeToCode ==> r == Ok(TypeToCode[Normalize(name.s)])
  {
    if !Truthy(name) || !name.Str? then Err(EInvalidChatType("Unknown chat type", [name]))
    else if Normalize(name.s) !in TypeToCode then Err(ChatError.KeyError(Normalize(name.s)))
    else Ok(TypeToCode[Normalize(name.s)])
  }

  class TelegramChatType {
    var code: Option<string>
    var nameField: Option<string>

    /** A row with no code and no name yet. */
    constructor Blank()
      ensures code.None? && nameField.None?
    {
      code := None;
      nameField := None;
    }

    /** The `name` property. */
    function Name(): Option<string>
      reads this
    {
      nameField
    }

    /**
     * The `name` setter: the value is stripped and lowered, its code is
     * looked up, and both fields are set.  An unknown name raises `KeyError`
     * before either field changes.
     */
    method SetName(value: string) returns (r: Result<(), ChatError>)
      modifies this
      ensures Normalize(value) !in TypeToCode ==> r == Err(ChatError.KeyError(Normalize(value))) && unchanged(this)
      ensures Normalize(value) in TypeToCode ==> r.Ok? && code == Some(TypeToCode[Normalize(value)]) && Name() == Some(Normalize(value))
    {
      var v := Normalize(value);
      if v !in TypeToCode {
        return Err(ChatError.KeyError(v));
      }
      code := Some(TypeToCode[v]);
      nameField := Some(v);
      r := Ok(());
    }
  }

  /**
   * `TelegramChatType(name, code)`.  A falsy or non-string name raises
   * `EInvalidChatType("Unknown chat type", name)`; the stripped, lowered
   * name must be one of the four known ones (`KeyError` otherwise); a
   * truthy `code` must equal the derived code exactly, with no
   * normalisation of `code` itself (`EInvalidChatType("Inconsistent chat
   * code", code, name)` otherwise).  The new row has the derived code and
   * the normalised name.
   */
  method NewChatType(name: Value, code: Value) returns (r: Result<TelegramChatType, ChatError>)
    ensures CodeOf(name).Err? ==> r == Err(CodeOf(name).error)
    ensures CodeOf(name).Ok? && Truthy(code) && code != Str(CodeOf(name).value)
            ==> r == Err(EInvalidChatType("Inconsistent chat code", [code, name]))
    ensures r.Ok? <==> CodeOf(name).Ok? && (!Truthy(code) || code == Str(CodeOf(name).value))
    ensures r.Ok? ==> && fresh(r.value)
                      && r.value.code == Some(CodeOf(name).value)
                      && r.value.Name() == Some(Normalize(name.s))
  {
    if !Truthy(name) || !name.Str? {
      return Err(EInvalidChatType("Unknown chat type", [name]));
    }
    var n := Normalize(name.s);
    if n !in TypeToCode {
      return Err(ChatError.KeyError(n));
    }
    var c := TypeToCode[n];
    CodeIsNormal(n);
    if Truthy(code) && code != Str(Normalize(c)) {
      return Err(EInvalidChatType("Inconsistent chat code", [code, name]));
    }
    NormalizeIdempotent(name.s);
    var t := new TelegramChatType.Blank();
    // The base constructor assigns `name=n` through the property setter.
    var _ := t.SetName(n);
    t.code := Some(c);
    var _ := t.SetName(n);
    r := Ok(t);
  }

  /** The chat columns `from_dict` overwrites, each the JSON value as it arrived or `None`. */
  datatype ChatFields = ChatFields(
    title: Value, username: Value, firstName: Value, lastName: Value,
    description: Value, inviteLink: Value)

  /** `d.get(field, None)` for each of the overwritten columns. */
  function FieldsOf(d: map<string, Value>): ChatFields {
    ChatFields(Get(d, "title"), Get(d, "username"), Get(d, "first_name"), Get(d, "last_name"),
               Get(d, "description"), Get(d, "invite_link"))
  }

  /** A dict with only `id` and `type` clears every overwritten column. */
  lemma BareChatFields(id: Value, chatType: Value)
    ensures FieldsOf(map["id" := id, "type" := chatType]) == ChatFields(Null, Null, Null, Null, Null, Null)
  {
    var d := map["id" := id, "type" := chatType];
    assert "title" !in d && "username" !in d && "first_name" !in d;
    assert "last_name" !in d && "description" !in d && "invite_link" !in d;
  }

  class TelegramChat {
    const id: int
    var typeCode: Option<string>
    var chatType: Option<TelegramChatType>
    var title: Value
    var username: Value
    var firstName: Value
    var lastName: Value
    var description: Value
    var inviteLink: Value

    /** `TelegramChat(id=...)`: a new chat with no type and every column `None`. */
    constructor (id: int)
      ensures this.id == id && typeCode.None? && chatType.None?
      ensures Fields() == ChatFields(Null, Null, Null, Null, Null, Null)
    {
      this.id := id;
      typeCode, chatType := None, None;
      title, username, firstName, lastName, description, inviteLink := Null, Null, Null, Null, Null, Null;
    }

    function Fields(): ChatFields
      reads this
    {
      ChatFields(title, username, firstName, lastName, description, inviteLink)
    }

    /** The type assignment in `from_dict`: the chat takes the type and its code. */
    method SetType(t: TelegramChatType)
      modifies this
      ensures chatType == Some(t) && typeCode == t.code && Fields() == old(Fields())
    {
      chatType := Some(t);
      typeCode := t.code;
    }

    /** The column assignments in `from_dict`. */
    method SetFields(f: ChatFields)
      modifies this
      ensures Fields() == f && typeCode == old(typeCode) && chatType == old(chatType)
    {
      title, username, firstName, lastName := f.title, f.username, f.firstName, f.lastName;
      description, inviteLink := f.description, f.inviteLink;
    }

    /** `is_admin_channel(bot_id)`: a group chat with a `(bot_id, id)` admin row. */
    function IsAdminChannel(db: ChatTables, botId: int): (r: bool)
      reads this, db
      ensures r <==> IsGroupCode(typeCode) && (botId, id) in db.adminChats
    {
      IsGroupCode(typeCode) && (botId, id) in db.adminChats
    }

    /** `is_forward_channel(bot_id)`: a group chat with a `(bot_id, id)` forward row. */
    function IsForwardChannel(db: ChatTables, botId: int): (r: bool)
      reads this, db
      ensures r <==> IsGroupCode(typeCode) && (botId, id) in db.forwardChats
    {
      IsGroupCode(typeCode) && (botId, id) in db.forwardChats
    }

    /** `set_admin_channel(bot_id)`: upsert the `(bot_id, id)` admin row; only groups qualify. */
    method SetAdminChannel(db: ChatTables, botId: int) returns (r: Result<(), ChatError>)
      modifies db
      ensures IsGroupCode(typeCode) ==> r.Ok? && db.adminChats == old(db.adminChats) + {(botId, id)} && IsAdminChannel(db, botId)
      ensures !IsGroupCode(typeCode) ==> r == Err(EInappropriateChatType("Only group chats can be set as administrative")) && db.adminChats == old(db.adminChats)
      ensures db.forwardChats == old(db.forwardChats) && db.chats == old(db.chats) && db.chatTypes == old(db.chatTypes)
    {
      if IsGroupCode(typeCode) {
        db.adminChats := db.adminChats + {(botId, id)};
        r := Ok(());
      } else {
        r := Err(EInappropriateChatType("Only group chats can be set as administrative"));
      }
    }

    /** `set_forward_channel(bot_id)`: upsert the `(bot_id, id)` forward row; only groups qualify. */
    method SetForwardChannel(db: ChatTables, botId: int) returns (r: Result<(), ChatError>)
      modifies db
      ensures IsGroupCode(typeCode) ==> r.Ok? && db.forwardChats == old(db.forwardChats) + {(botId, id)} && IsForwardChannel(db, botId)
      ensures !IsGroupCode(typeCode) ==> r == Err(EInappropriateChatType("Only group chats can be set as forward targets")) && db.forwardChats == old(db.forwardChats)
      ensures db.adminChats == old(db.adminChats) && db.chats == old(db.chats) && db.chatTypes == old(db.chatTypes)
    {
      if IsGroupCode(typeCode) {
        db.forwardChats := db.forwardChats + {(botId, id)};
        r := Ok(());
      } else {
        r := Err(EInappropriateChatType("Only group chats can be set as forward targets"));
      }
    }

    /** `revoke_admin_channel(bot_id)`: delete the `(bot_id, id)` admin row and no other; only groups qualify. */
    method RevokeAdminChannel(db: ChatTables, botId: int) returns (r: Result<(), ChatError>)
      modifies db
      ensures IsGroupCode(typeCode) ==> r.Ok? && db.adminChats == old(db.adminChats) - {(botId, id)} && !IsAdminChannel(db, botId)
      ensures !IsGroupCode(typeCode) ==> r == Err(EInappropriateChatType("Only group chats can be set as administrative")) && db.adminChats == old(db.adminChats)
      ensures db.forwardChats == old(db.forwardChats) && db.chats == old(db.chats) && db.chatTypes == old(db.chatTypes)
    {
      if IsGroupCode(typeCode) {
        db.adminChats := db.adminChats - {(botId, id)};
        r := Ok(());
      } else {
        r := Err(EInappropriateChatType("Only group chats can be set as administrative"));
      }
    }

    /** `revoke_forward_channel(bot_id)`: delete the `(bot_id, id)` forward row and no other; only groups qualify. */
    method RevokeForwardChannel(db: ChatTables, botId: int) returns (r: Result<(), ChatError>)
      modifies db
      ensures IsGroupCode(typeCode) ==> r.Ok? && db.forwardChats == old(db.forwardChats) - {(botId, id)} && !IsForwardChannel(db, botId)
      ensures !IsGroupCode(typeCode) ==> r == Err(EInappropriateChatType("Only group chats can be set as forward targets")) && db.forwardChats == old(db.forwardChats)
      ensures db.adminChats == old(db.adminChats) && db.chats == old(db.chats) && db.chatTypes == old(db.chatTypes)
    {
      if IsGroupCode(typeCode) {
        db.forwardChats := db.forwardChats - {(botId, id)};
        r := Ok(());
      } else {
        r := Err(EInappropriateChatType("Only group chats can be set as forward targets"));
      }
    }
  }

  /** The tables the chat operations read and write. */
  class ChatTables {
    /** `telegram_chat`, by primary key. */
    var chats: map<int, TelegramChat>
    /** `chat_type`, by code. */
    var chatTypes: map<string, TelegramChatType>
    /** `bot_admin_chat`: `(bot_id, chat_id)` pairs. */
    var adminChats: set<(int, int)>
    /** `bot_forward_chat`: `(bot_id, chat_id)` pairs. */
    var forwardChats: set<(int, int)>

    constructor ()
      ensures chats == map[] && chatTypes == map[] && adminChats == {} && forwardChats == {}
    {
      chats, chatTypes := map[], map[];
      adminChats, forwardChats := {}, {};
    }

    /** Every stored row sits under its own primary key. */
    ghost predicate Valid()
      reads this, chats.Values, chatTypes.Values
    {
      && (forall k :: k in chats ==> chats[k].id == k)
      && (forall k :: k in chatTypes ==> chatTypes[k].code == Some(k))
    }

    /** `TelegramChat.query.filter_by(id=id).first() or TelegramChat(id=id)`. */
    method LoadChat(id: int) returns (chat: TelegramChat)
      requires Valid()
      ensures chat.id == id
      ensures id in chats ==> chat == chats[id]
      ensures id !in chats ==> fresh(chat) && chat.typeCode.None? && chat.chatType.None?
    {
      if id in chats {
        chat := chats[id];
      } else {
        chat := new TelegramChat(id);
      }
    }

    /**
     * `db.session.merge(t)` for a chat type: the stored row with the same
     * code takes `t`'s state and is returned; without one, `t` itself is
     * stored and returned.
     */
    method MergeChatType(t: TelegramChatType) returns (m: TelegramChatType)
      requires t.code.Some? && Valid()
      modifies this, chatTypes.Values
      ensures m.code == old(t.code) && m.Name() == old(t.Name())
      ensures old(t.code.value) in old(chatTypes) ==> m == old(chatTypes)[old(t.code.value)]
      ensures old(t.code.value) !in old(chatTypes) ==> m == t
      ensures chatTypes == old(chatTypes)[old(t.code.value) := m]
      ensures chats == old(chats) && adminChats == old(adminChats) && forwardChats == old(forwardChats)
      ensures unchanged(old(chatTypes.Values) - {m})
      ensures Valid()
    {
      var k := t.code.value;
      if k in chatTypes {
        m := chatTypes[k];
        m.code, m.nameField := t.code, t.nameField;
      } else {
        m := t;
        chatTypes := chatTypes[k := t];
      }
    }
  }

  /**
   * The updates `from_dict` makes to a loaded chat: a truthy `d["type"]`
   * builds a chat type, merges it and sets the chat's type and code from
   * it (a rejected type raises before anything changes); a falsy or absent
   * one leaves them as they were.  Then the six columns are overwritten.
   */
  method ApplyDict(db: ChatTables, chat: TelegramChat, d: map<string, Value>) returns (r: Result<(), ChatError>)
    requires db.Valid()
    modifies db, chat, db.chatTypes.Values
    ensures r.Err? <==> Truthy(Get(d, "type")) && CodeOf(Get(d, "type")).Err?
    ensures r.Err? ==> r.error == CodeOf(Get(d, "type")).error && unchanged(db) && unchanged(chat) && unchanged(db.chatTypes.Values)
    ensures r.Ok? ==> chat.Fields() == FieldsOf(d)
    ensures r.Ok? && Truthy(Get(d, "type")) ==> chat.typeCode == Some(CodeOf(Get(d, "type")).value) && chat.chatType.Some?
    ensures r.Ok? && !Truthy(Get(d, "type")) ==> chat.typeCode == old(chat.typeCode) && chat.chatType == old(chat.chatType)
    ensures r.Ok? && Truthy(Get(d, "type")) ==>
              var k := CodeOf(Get(d, "type")).value;
              && k in db.chatTypes
              && chat.chatType == Some(db.chatTypes[k])
              && db.chatTypes == old(db.chatTypes)[k := db.chatTypes[k]]
              && db.chatTypes[k].Name() == Some(Normalize(Get(d, "type").s))
              && unchanged(old(db.chatTypes.Values) - {db.chatTypes[k]})
    ensures !Truthy(Get(d, "type")) ==> db.chatTypes == old(db.chatTypes) && unchanged(db.chatTypes.Values)
    ensures db.chats == old(db.chats) && db.adminChats == old(db.adminChats) && db.forwardChats == old(db.forwardChats)
    ensures db.Valid()
  {
    var chatType := Get(d, "type");
    if Truthy(chatType) {
      var t := NewChatType(chatType, Null);
      if t.Err? {
        return Err(t.error);
      }
      var merged := db.MergeChatType(t.value);
      chat.SetType(merged);
    }
    chat.SetFields(FieldsOf(d));
    r := Ok(());
  }

  /**
   * `TelegramChat.from_dict(d)`: the chat stored under `d["id"]`, or a new
   * unsaved one, updated from `d` as `ApplyDict` describes.  A missing
   * `id` raises `KeyError` before anything else.
   */
  method ChatFromDict(db: ChatTables, d: map<string, Value>) returns (r: Result<TelegramChat, ChatError>)
    requires db.Valid()
    modifies db, db.chats.Values, db.chatTypes.Values
    ensures "id" !in d ==> r == Err(ChatError.KeyError("id"))
    ensures "id" in d && !d["id"].Int? ==> r == Err(ChatError.TypeMismatch("id"))
    ensures "id" in d && d["id"].Int? && Truthy(Get(d, "type")) && CodeOf(Get(d, "type")).Err? ==> r == Err(CodeOf(Get(d, "type")).error)
    ensures r.Err? ==> unchanged(db) && unchanged(db.chats.Values) && unchanged(db.chatTypes.Values)
    ensures r.Ok? ==> "id" in d && d["id"] == Int(r.value.id) && r.value.Fields() == FieldsOf(d)
    ensures r.Ok? ==> if r.value.id in old(db.chats) then r.value == old(db.chats)[r.value.id] else fresh(r.value)
    ensures r.Ok? ==> unchanged(old(db.chats.Values) - {r.value})
    ensures r.Ok? && Truthy(Get(d, "type")) ==> r.value.typeCode == Some(CodeOf(Get(d, "type")).value)
    ensures r.Ok? && !Truthy(Get(d, "type")) && r.value.id in old(db.chats) ==> r.value.typeCode == old(db.chats[r.value.id].typeCode)
    ensures r.Ok? && !Truthy(Get(d, "type")) && r.value.id !in old(db.chats) ==> r.value.typeCode.None?
    ensures r.Ok? && Truthy(Get(d, "type")) ==>
              var k := CodeOf(Get(d, "type")).value;
              && k in db.chatTypes
              && r.value.chatType == Some(db.chatTypes[k])
              && db.chatTypes == old(db.chatTypes)[k := db.chatTypes[k]]
              && db.chatTypes[k].Name() == Some(Normalize(Get(d, "type").s))
              && unchanged(old(db.chatTypes.Values) - {db.chatTypes[k]})
    ensures !Truthy(Get(d, "type")) ==> db.chatTypes == old(db.chatTypes) && unchanged(db.chatTypes.Values)
    ensures db.chats == old(db.chats) && db.adminChats == old(db.adminChats) && db.forwardChats == old(db.forwardChats)
    ensures db.Valid()
  {
    if "id" !in d {
      return Err(ChatError.KeyError("id"));
    }
    if !d["id"].Int? {
      return Err(ChatError.TypeMismatch("id"));
    }
    var chat := db.LoadChat(d["id"].i);
    var applied := ApplyDict(db, chat, d);
    if applied.Err? {
      return Err(applied.error);
    }
    r := Ok(chat);
  }
}
