/**
 * `BotDispatcher`: the per-token object that parses the bot's user id out of
 * its token, builds Bot API endpoints, keeps the list of update handlers and
 * runs an incoming update through them.  The class-level `_bots` registry is
 * the `Registry` class; handlers are modelled as records carrying the
 * handler's `__module__`, `__qualname__` and its behaviour as a function.
 */
module Dispatcher {
  import opened Wrappers
  import opened PyStr
  import opened PyValue
  import opened OrderedMaps

  /** The JSON object of an incoming update. */
  type Update = map<string, Value>

  /** A subscribed update handler: where it is defined, and what it returns for an update. */
  datatype Handler = Handler(moduleName: string, qualName: string, call: Update -> Value)

  /** What `process_update` raises: `KeyError` from `f_result["ok"]`. */
  datatype DispatchError = KeyError(key: string)

  /** What `BotDispatcher.token = value` raises. */
  datatype TokenError = EInvalidBotToken(token: string)

  /** The log key of a handler, `".".join((f.__module__, f.__qualname__))`. */
  function Key(h: Handler): string {
    h.moduleName + "." + h.qualName
  }

  /** What the loop does after recording a handler's result. */
  datatype Verdict = Continue | Stop | Raise

  /**
   * `not f_result or (isinstance(f_result, dict) and f_result["ok"] is not True)`:
   * a falsy result stops, a truthy dict without `"ok"` raises, a truthy dict
   * whose `"ok"` is anything but `True` stops, and every other result lets
   * the next handler run.
   */
  function Judge(v: Value): (r: Verdict)
    ensures r == Continue <==> Truthy(v) && (v.Dict? ==> "ok" in v.entries && v.entries["ok"] == Bool(true))
    ensures r == Raise <==> v.Dict? && |v.entries| > 0 && "ok" !in v.entries
    ensures !Truthy(v) ==> r == Stop
  {
    if !Truthy(v) then Stop
    else if v.Dict? then
      if "ok" !in v.entries then Raise
      else if v.entries["ok"] != Bool(true) then Stop
      else Continue
    else Continue
  }

  /** The verdict on handler `i`'s result. */
  function VerdictAt(hs: seq<Handler>, data: Update, i: nat): Verdict
    requires i < |hs|
  {
    Judge(hs[i].call(data))
  }

  /**
   * How many of the handlers from `i` on are called: up to and including
   * the first one whose verdict is not `Continue`, or all of them.
   */
  function CalledFrom(hs: seq<Handler>, data: Update, i: nat): (r: nat)
    requires i <= |hs|
    ensures i <= r <= |hs|
    ensures forall j :: i <= j < r - 1 ==> VerdictAt(hs, data, j) == Continue
    ensures r < |hs| ==> i < r && VerdictAt(hs, data, r - 1) != Continue
    ensures r == |hs| && i < r && VerdictAt(hs, data, r - 1) == Continue ==> forall j :: i <= j < r ==> VerdictAt(hs, data, j) == Continue
    decreases |hs| - i
  {
    if i == |hs| then i
    else if VerdictAt(hs, data, i) != Continue then i + 1
    else CalledFrom(hs, data, i + 1)
  }

  /** The number of handlers `process_update` calls. */
  function Called(hs: seq<Handler>, data: Update): nat {
    CalledFrom(hs, data, 0)
  }

  /** The log after the first `n` handlers: each writes its result under its key, a repeated key keeps its place and takes the later value. */
  function LogUpTo(hs: seq<Handler>, data: Update, n: nat): OrderedMap<string, Value>
    requires n <= |hs|
  {
    if n == 0 then Empty()
    else Put(LogUpTo(hs, data, n - 1), Key(hs[n - 1]), hs[n - 1].call(data))
  }

  /**
   * `process_update` as a value: the log of every handler called, or the
   * `KeyError` of the last one called when its result is a non-empty dict
   * without `"ok"`.
   */
  function Dispatch(hs: seq<Handler>, data: Update): (r: Result<OrderedMap<string, Value>, DispatchError>)
    ensures r.Err? ==> r.error == DispatchError.KeyError("ok")
    ensures r.Ok? ==> r.value.Valid()
  {
    var n := Called(hs, data);
    LogValid(hs, data, n);
    if n > 0 && VerdictAt(hs, data, n - 1) == Raise then Err(DispatchError.KeyError("ok"))
    else Ok(LogUpTo(hs, data, n))
  }

  /** The loop stops after handler `i`: that is the last one called, and the log ends with it. */
  lemma StoppedAt(hs: seq<Handler>, data: Update, i: nat)
    requires i < |hs| && VerdictAt(hs, data, i) == Stop
    requires CalledFrom(hs, data, i) == Called(hs, data)
    ensures Dispatch(hs, data) == Ok(LogUpTo(hs, data, i + 1))
  {
  }

  /** Handler `i` raises: nothing is returned. */
  lemma RaisedAt(hs: seq<Handler>, data: Update, i: nat)
    requires i < |hs| && VerdictAt(hs, data, i) == Raise
    requires CalledFrom(hs, data, i) == Called(hs, data)
    ensures Dispatch(hs, data) == Err(DispatchError.KeyError("ok"))
  {
  }

  /** The log is a well-formed dictionary: one entry per distinct key. */
  lemma {:induction false} LogValid(hs: seq<Handler>, data: Update, n: nat)
    requires n <= |hs|
    ensures LogUpTo(hs, data, n).Valid()
  {
    if n > 0 {
      LogValid(hs, data, n - 1);
      PutValid(LogUpTo(hs, data, n - 1), Key(hs[n - 1]), hs[n - 1].call(data));
    } else {
      EmptyValid<string, Value>();
    }
  }

  /** The log's keys are the keys of the handlers run, and no others. */
  lemma {:induction false} LogKeys(hs: seq<Handler>, data: Update, n: nat, k: string)
    requires n <= |hs|
    ensures k in LogUpTo(hs, data, n).values <==> exists i :: 0 <= i < n && Key(hs[i]) == k
  {
    if n > 0 {
      LogKeys(hs, data, n - 1, k);
      if exists i :: 0 <= i < n - 1 && Key(hs[i]) == k {
        var i :| 0 <= i < n - 1 && Key(hs[i]) == k;
        assert 0 <= i < n && Key(hs[i]) == k;
      }
      if exists i :: 0 <= i < n && Key(hs[i]) == k {
        var i :| 0 <= i < n && Key(hs[i]) == k;
        if i < n - 1 {
          assert 0 <= i < n - 1 && Key(hs[i]) == k;
        }
      }
    }
  }

  /** A handler registered twice logs under one key, holding the result of its last run. */
  lemma {:induction false} LogLastWins(hs: seq<Handler>, data: Update, n: nat, i: nat)
    requires i < n <= |hs|
    requires forall j :: i < j < n ==> Key(hs[j]) != Key(hs[i])
    ensures Key(hs[i]) in LogUpTo(hs, data, n).values
    ensures LogUpTo(hs, data, n).values[Key(hs[i])] == hs[i].call(data)
  {
    if n > i + 1 {
      LogLastWins(hs, data, n - 1, i);
    }
  }

  /** The log of a longer list agrees with the log of its prefix. */
  lemma {:induction false} LogPrefix(hs: seq<Handler>, more: seq<Handler>, data: Update, n: nat)
    requires n <= |hs|
    ensures LogUpTo(hs + more, data, n) == LogUpTo(hs, data, n)
  {
    if n > 0 {
      LogPrefix(hs, more, data, n - 1);
      assert (hs + more)[n - 1] == hs[n - 1];
    }
  }

  /** Once one of the handlers from `i` on stops the loop, handlers appended after them are never reached. */
  lemma {:induction false} CalledPrefix(hs: seq<Handler>, more: seq<Handler>, data: Update, i: nat)
    requires i <= |hs|
    requires exists j :: i <= j < |hs| && VerdictAt(hs, data, j) != Continue
    ensures CalledFrom(hs + more, data, i) == CalledFrom(hs, data, i)
    decreases |hs| - i
  {
    var j :| i <= j < |hs| && VerdictAt(hs, data, j) != Continue;
    assert (hs + more)[i] == hs[i];
    if VerdictAt(hs, data, i) == Continue {
      assert j != i;
      CalledPrefix(hs, more, data, i + 1);
    }
  }

  /**
   * Handlers after the one that stops the loop are neither called nor
   * logged: appending handlers to a list that stops leaves the outcome as it was.
   */
  lemma StopHidesLaterHandlers(hs: seq<Handler>, more: seq<Handler>, data: Update, s: nat)
    requires s < |hs| && VerdictAt(hs, data, s) != Continue
    ensures Dispatch(hs + more, data) == Dispatch(hs, data)
  {
    assert 0 <= s < |hs| && VerdictAt(hs, data, s) != Continue;
    CalledPrefix(hs, more, data, 0);
    var n := Called(hs, data);
    assert Called(hs + more, data) == n;
    LogPrefix(hs, more, data, n);
    if n > 0 {
      assert (hs + more)[n - 1] == hs[n - 1];
      assert VerdictAt(hs + more, data, n - 1) == VerdictAt(hs, data, n - 1);
    }
    if n > 0 && VerdictAt(hs, data, n - 1) == Raise {
      assert Dispatch(hs + more, data) == Err(DispatchError.KeyError("ok"));
    } else {
      assert Dispatch(hs + more, data) == Ok(LogUpTo(hs, data, n));
    }
  }

  /** When no handler stops the loop, every handler is called and logged. */
  lemma AllContinue(hs: seq<Handler>, data: Update)
    requires forall j :: 0 <= j < |hs| ==> VerdictAt(hs, data, j) == Continue
    ensures Dispatch(hs, data) == Ok(LogUpTo(hs, data, |hs|))
  {
    if |hs| > 0 {
      assert VerdictAt(hs, data, Called(hs, data) - 1) == Continue;
    }
  }

  /**
   * `process_update` raises exactly when some called handler returns a
   * non-empty dict without `"ok"`, every earlier handler having let the loop go on.
   */
  lemma RaisesIff(hs: seq<Handler>, data: Update)
    ensures Dispatch(hs, data).Err?
            <==> exists i :: 0 <= i < |hs| && VerdictAt(hs, data, i) == Raise
                             && forall j :: 0 <= j < i ==> VerdictAt(hs, data, j) == Continue
  {
    var n := Called(hs, data);
    if Dispatch(hs, data).Err? {
      assert 0 <= n - 1 < |hs| && VerdictAt(hs, data, n - 1) == Raise;
    }
    if exists i :: 0 <= i < |hs| && VerdictAt(hs, data, i) == Raise
                   && forall j :: 0 <= j < i ==> VerdictAt(hs, data, j) == Continue {
      var i :| 0 <= i < |hs| && VerdictAt(hs, data, i) == Raise
               && forall j :: 0 <= j < i ==> VerdictAt(hs, data, j) == Continue;
      assert n - 1 == i;
    }
  }

  /** `user_id`: `int(value.split(":")[0])`, or nothing when that raises. */
  function ParseUserId(token: string): Option<int> {
    ParseInt(Split(token, ":")[0])
  }

  /** A bot token, `<user id>:<secret>`, yields its user id. */
  lemma TokenUserId(n: int, secret: string)
    ensures ParseUserId(IntToDecimal(n) + ":" + secret) == Some(n)
  {
    var d := IntToDecimal(n);
    var t := d + ":" + secret;
    NoColonInDecimal(n);
    assert OccursAt(t, ":", |d|) by {
      assert t[|d|..|d| + 1] == ":";
    }
    forall j | 0 <= j < |d| ensures !OccursAt(t, ":", j) {
      assert t[j..j + 1][0] == d[j];
    }
    FindLeftmost(t, ":", |d|);
    SplitFirst(t, ":");
    assert t[..|d|] == d;
    DecimalRoundTrip(n);
  }

  /** `str(n)` has no colon in it. */
  lemma NoColonInDecimal(n: int)
    ensures forall j :: 0 <= j < |IntToDecimal(n)| ==> IntToDecimal(n)[j] != ':'
  {
    if n < 0 {
      var d := NatToDecimal(-n);
      assert forall j :: 0 < j < |IntToDecimal(n)| ==> IntToDecimal(n)[j] == d[j - 1];
    }
  }

  /** A token without a colon is parsed whole. */
  lemma TokenWithoutColon(token: string)
    requires forall j :: 0 <= j < |token| ==> token[j] != ':'
    ensures ParseUserId(token) == ParseInt(token)
  {
    forall j: nat ensures !OccursAt(token, ":", j) {
      if j + 1 <= |token| {
        assert token[j..j + 1][0] == token[j];
      }
    }
    SplitFirst(token, ":");
  }

  const ApiBase: string := "https://api.telegram.org/bot"

  /** `_api_endpoint_template.format(token=token, method=method)`. */
  function EndpointFor(token: string, apiMethod: string): (r: string)
    ensures |r| == |ApiBase| + |token| + 1 + |apiMethod|
    ensures r[..|ApiBase|] == ApiBase
    ensures r[|ApiBase|..|ApiBase| + |token|] == token
    ensures r[|ApiBase| + |token|] == '/'
    ensures r[|ApiBase| + |token| + 1..] == apiMethod
  {
    ApiBase + token + "/" + apiMethod
  }

  /** A token without `/` and the method name can be read back from the endpoint. */
  lemma EndpointInjective(t1: string, m1: string, t2: string, m2: string)
    requires forall j :: 0 <= j < |t1| ==> t1[j] != '/'
    requires forall j :: 0 <= j < |t2| ==> t2[j] != '/'
    requires EndpointFor(t1, m1) == EndpointFor(t2, m2)
    ensures t1 == t2 && m1 == m2
  {
  }

  class BotDispatcher {
    /** `_token`: the last token accepted by the setter. */
    var token: string
    var userId: int
    var updateHandlers: seq<Handler>

    /** The object as `__new__` leaves it, before `__init__` assigns anything. */
    constructor Allocate()
      ensures token == "" && userId == 0 && updateHandlers == []
    {
      token := "";
      userId := 0;
      updateHandlers := [];
    }

    /**
     * The `token` setter: `user_id` is parsed first; when that fails the
     * setter raises and neither field changes.
     */
    method SetToken(value: string) returns (r: Result<(), TokenError>)
      modifies this
      ensures r.Ok? <==> ParseUserId(value).Some?
      ensures r.Err? ==> r.error == EInvalidBotToken(value) && unchanged(this)
      ensures r.Ok? ==> token == value && userId == ParseUserId(value).value && updateHandlers == old(updateHandlers)
    {
      var parsed := ParseInt(Split(value, ":")[0]);
      if parsed.None? {
        return Err(EInvalidBotToken(value));
      }
      userId := parsed.value;
      token := value;
      r := Ok(());
    }

    /** `endpoint(method)`. */
    function Endpoint(apiMethod: string): (r: string)
      reads this
      ensures r == EndpointFor(token, apiMethod)
    {
      EndpointFor(token, apiMethod)
    }

    /** The `receive_update` decorator: the handler goes to the end of the list; duplicates are kept. */
    method ReceiveUpdate(f: Handler)
      modifies this
      ensures updateHandlers == old(updateHandlers) + [f]
      ensures token == old(token) && userId == old(userId)
    {
      updateHandlers := updateHandlers + [f];
    }

    /**
     * `process_update`: call the handlers in order with the same update,
     * record each result under the handler's key, and stop after a falsy
     * result or a dict whose `"ok"` is not `True`.
     */
    method ProcessUpdate(data: Update) returns (r: Result<OrderedMap<string, Value>, DispatchError>)
      ensures r == Dispatch(updateHandlers, data)
    {
      var result := Empty();
      var i := 0;
      while i < |updateHandlers|
        invariant i <= |updateHandlers|
        invariant CalledFrom(updateHandlers, data, i) == Called(updateHandlers, data)
        invariant forall j :: 0 <= j < i ==> VerdictAt(updateHandlers, data, j) == Continue
        invariant result.keys == LogUpTo(updateHandlers, data, i).keys
        invariant result.values == LogUpTo(updateHandlers, data, i).values
      {
        var f := updateHandlers[i];
        var fResult := f.call(data);
        result := Put(result, Key(f), fResult);
        if !Truthy(fResult) {
          StoppedAt(updateHandlers, data, i);
          break;
        }
        if fResult.Dict? {
          if "ok" !in fResult.entries {
            RaisedAt(updateHandlers, data, i);
            return Err(DispatchError.KeyError("ok"));
          }
          if fResult.entries["ok"] != Bool(true) {
            StoppedAt(updateHandlers, data, i);
            break;
          }
        }
        i := i + 1;
      }
      r := Ok(result);
    }
  }

  /** The class-level `_bots` dictionary, from token to dispatcher. */
  class Registry {
    var bots: map<string, BotDispatcher>

    constructor ()
      ensures bots == map[]
    {
      bots := map[];
    }

    /**
     * `BotDispatcher(token)`: assign the token (which can raise), start with
     * no handlers, and register the new dispatcher under its token, replacing
     * any earlier one.
     */
    method Init(token: string) returns (r: Result<BotDispatcher, TokenError>)
      modifies this
      ensures r.Ok? <==> ParseUserId(token).Some?
      ensures r.Err? ==> r.error == EInvalidBotToken(token) && bots == old(bots)
      ensures r.Ok? ==> && fresh(r.value)
                        && r.value.token == token && r.value.userId == ParseUserId(token).value
                        && r.value.updateHandlers == []
                        && bots == old(bots)[token := r.value]
    {
      var d := new BotDispatcher.Allocate();
      var outcome := d.SetToken(token);
      if outcome.Err? {
        return Err(outcome.error);
      }
      d.updateHandlers := [];
      bots := bots[token := d];
      r := Ok(d);
    }

    /**
     * `BotDispatcher.get(token)`: the default `cls(token)` is built before the
     * lookup, and building it registers it, so the lookup always finds the
     * new dispatcher: a fresh one with no handlers, never an earlier one.
     */
    method Get(token: string) returns (r: Result<BotDispatcher, TokenError>)
      modifies this
      ensures r.Ok? <==> ParseUserId(token).Some?
      ensures r.Err? ==> r.error == EInvalidBotToken(token) && bots == old(bots)
      ensures r.Ok? ==> && fresh(r.value)
                        && r.value.token == token && r.value.userId == ParseUserId(token).value
                        && r.value.updateHandlers == []
                        && bots == old(bots)[token := r.value]
    {
      var created := Init(token);
      if created.Err? {
        return Err(created.error);
      }
      r := Ok(if token in bots then bots[token] else created.value);
    }
  }
}
