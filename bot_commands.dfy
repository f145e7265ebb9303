/**
 * `TelegramMessage.bot_commands`: the commands of a message and their
 * parameters, as an insertion-ordered map from command to parameter list.
 */
module BotCommands {
  import opened Wrappers
  import opened PyStr
  import opened MessageEntity
  import opened OrderedMaps

  predicate IsCommand(e: Entity) { e.entityType == "bot_command" }

  /** Offsets and lengths are non-negative (negative Python slice indices are not modelled). */
  predicate NonNegative(entities: seq<Entity>) {
    forall i :: 0 <= i < |entities| ==> entities[i].offset >= 0 && entities[i].length >= 0
  }

  /** The command key, `text[offset:length]`: the slice ends at `length`, not at `offset + length`. */
  function Token(text: string, e: Entity): (r: string)
    requires e.offset >= 0 && e.length >= 0
    ensures e.offset <= e.length <= |text| ==> r == text[e.offset..e.length]
    ensures e.length <= e.offset ==> r == ""
  {
    Slice(text, e.offset, e.length)
  }

  /** The parameters, `text[offset + length:].strip().split(" ")`. */
  function Params(text: string, e: Entity): (r: seq<string>)
    requires e.offset >= 0 && e.length >= 0
    ensures |r| >= 1
  {
    Split(Strip(SliceFrom(text, e.offset + e.length)), " ")
  }

  /**
   * The dictionary built from the first `n` candidate entries, in order:
   * `None` is skipped, and a key already present keeps its first value.
   */
  function CollectUpTo<K(==), V>(ps: seq<Option<(K, V)>>, n: nat): OrderedMap<K, V>
    requires n <= |ps|
  {
    if n == 0 then Empty()
    else
      var m := CollectUpTo(ps, n - 1);
      var p := ps[n - 1];
      if p.Some? && p.value.0 !in m.values then Put(m, p.value.0, p.value.1) else m
  }

  /** The dictionary stays well formed however many entries are collected. */
  lemma {:induction false} CollectValid<K, V>(ps: seq<Option<(K, V)>>, n: nat)
    requires n <= |ps|
    ensures CollectUpTo(ps, n).Valid()
  {
    if n > 0 {
      CollectValid(ps, n - 1);
      CollectValidStep(ps, n - 1);
    } else {
      EmptyValid<K, V>();
    }
  }

  lemma CollectValidStep<K, V>(ps: seq<Option<(K, V)>>, n: nat)
    requires n < |ps| && CollectUpTo(ps, n).Valid()
    ensures CollectUpTo(ps, n + 1).Valid()
  {
    var m := CollectUpTo(ps, n);
    var p := ps[n];
    if p.Some? && p.value.0 !in m.values {
      PutValid(m, p.value.0, p.value.1);
    }
  }

  lemma CollectStep<K, V>(ps: seq<Option<(K, V)>>, n: nat)
    requires n < |ps|
    ensures var m := CollectUpTo(ps, n);
            CollectUpTo(ps, n + 1) == if ps[n].Some? && ps[n].value.0 !in m.values then Put(m, ps[n].value.0, ps[n].value.1) else m
  {
  }

  /** Some entry among the first `n` has key `k`. */
  predicate HasKey<K(==), V>(ps: seq<Option<(K, V)>>, n: nat, k: K)
    requires n <= |ps|
  {
    exists i :: 0 <= i < n && ps[i].Some? && ps[i].value.0 == k
  }

  /** The keys collected are exactly the keys of the entries. */
  lemma {:induction false} CollectKeys<K, V>(ps: seq<Option<(K, V)>>, n: nat, k: K)
    requires n <= |ps|
    ensures k in CollectUpTo(ps, n).values <==> HasKey(ps, n, k)
  {
    if n > 0 {
      CollectKeys(ps, n - 1, k);
      if HasKey(ps, n - 1, k) {
        var i :| 0 <= i < n - 1 && ps[i].Some? && ps[i].value.0 == k;
        assert 0 <= i < n && ps[i].Some? && ps[i].value.0 == k;
      }
      if HasKey(ps, n, k) && !HasKey(ps, n - 1, k) {
        var i :| 0 <= i < n && ps[i].Some? && ps[i].value.0 == k;
        assert i == n - 1;
      }
    }
  }

  /** The first entry with a given key decides its value; later ones are ignored. */
  lemma {:induction false} CollectFirstWins<K, V>(ps: seq<Option<(K, V)>>, n: nat, i: nat)
    requires i < n <= |ps| && ps[i].Some?
    requires forall j :: 0 <= j < i && ps[j].Some? ==> ps[j].value.0 != ps[i].value.0
    ensures ps[i].value.0 in CollectUpTo(ps, n).values
    ensures CollectUpTo(ps, n).values[ps[i].value.0] == ps[i].value.1
  {
    var k := ps[i].value.0;
    if n == i + 1 {
      CollectKeys(ps, i, k);
      assert !HasKey(ps, i, k);
    } else {
      CollectFirstWins(ps, n - 1, i);
    }
  }

  /** Entries past `n` do not matter. */
  lemma {:induction false} CollectPrefix<K, V>(ps: seq<Option<(K, V)>>, qs: seq<Option<(K, V)>>, n: nat)
    requires n <= |ps| && n <= |qs| && ps[..n] == qs[..n]
    ensures CollectUpTo(ps, n) == CollectUpTo(qs, n)
  {
    if n > 0 {
      assert ps[..n - 1] == qs[..n - 1];
      assert ps[n - 1] == ps[..n][n - 1];
      assert qs[n - 1] == qs[..n][n - 1];
      CollectPrefix(ps, qs, n - 1);
    }
  }

  /**
   * Key `a` before key `b` means an entry for `a` comes before one for
   * `b`, and indeed before every entry for `b`.
   */
  lemma {:induction false} CollectOrder<K, V>(ps: seq<Option<(K, V)>>, n: nat, a: nat, b: nat)
    requires n <= |ps| && a < b < |CollectUpTo(ps, n).keys|
    ensures exists i, j :: 0 <= i < j < n && ps[i].Some? && ps[j].Some?
                        && ps[i].value.0 == CollectUpTo(ps, n).keys[a]
                        && ps[j].value.0 == CollectUpTo(ps, n).keys[b]
    ensures forall j :: 0 <= j < n && ps[j].Some? && ps[j].value.0 == CollectUpTo(ps, n).keys[b]
                        ==> HasKey(ps, j, CollectUpTo(ps, n).keys[a])
  {
    var m := CollectUpTo(ps, n - 1);
    var r := CollectUpTo(ps, n);
    CollectValid(ps, n - 1);
    if b < |m.keys| {
      assert r.keys[..|m.keys|] == m.keys;
      assert r.keys[a] == m.keys[a] && r.keys[b] == m.keys[b];
      CollectOrder(ps, n - 1, a, b);
      var i, j :| 0 <= i < j < n - 1 && ps[i].Some? && ps[j].Some?
                  && ps[i].value.0 == m.keys[a] && ps[j].value.0 == m.keys[b];
      assert 0 <= i < j < n;
      forall j | 0 <= j < n && ps[j].Some? && ps[j].value.0 == r.keys[b] ensures HasKey(ps, j, r.keys[a]) {
        if j == n - 1 {
          // the entry for `b` at the end repeats a key already collected, so an earlier one exists
          assert m.keys[b] in m.values;
          CollectKeys(ps, n - 1, m.keys[b]);
          var j' :| 0 <= j' < n - 1 && ps[j'].Some? && ps[j'].value.0 == m.keys[b];
          assert HasKey(ps, j', m.keys[a]);
          var i :| 0 <= i < j' && ps[i].Some? && ps[i].value.0 == m.keys[a];
          assert 0 <= i < j;
        } else {
          assert HasKey(ps, j, m.keys[a]);
        }
      }
    } else {
      assert r.keys == m.keys + [ps[n - 1].value.0];
      assert r.keys[a] == m.keys[a];
      assert m.keys[a] in m.values;
      CollectKeys(ps, n - 1, m.keys[a]);
      var i :| 0 <= i < n - 1 && ps[i].Some? && ps[i].value.0 == m.keys[a];
      assert 0 <= i < n - 1 < n;
      forall j | 0 <= j < n && ps[j].Some? && ps[j].value.0 == r.keys[b] ensures HasKey(ps, j, r.keys[a]) {
        // the key of `b` is new at step `n - 1`, so no earlier entry has it
        CollectKeys(ps, n - 1, r.keys[b]);
        assert j == n - 1;
        assert i < j;
      }
    }
  }

  /** What one entity contributes: its key and parameters when it is a `bot_command`. */
  function Entry(text: string, e: Entity): Option<(string, seq<string>)>
    requires e.offset >= 0 && e.length >= 0
  {
    if IsCommand(e) then Some((Token(text, e), Params(text, e))) else None
  }

  function Entries(text: string, entities: seq<Entity>): (r: seq<Option<(string, seq<string>)>>)
    requires NonNegative(entities)
    ensures |r| == |entities|
  {
    seq(|entities|, i requires 0 <= i < |entities| => Entry(text, entities[i]))
  }

  /** `bot_commands`: empty when the message has no text. */
  function Commands(text: Option<string>, entities: seq<Entity>): (r: OrderedMap<string, seq<string>>)
    requires NonNegative(entities)
    ensures text.None? ==> r.keys == [] && r.values == map[]
  {
    if text.None? then Empty() else CollectUpTo(Entries(text.value, entities), |entities|)
  }

  /** The command dictionary is well formed: distinct keys, exactly those of the map. */
  lemma CommandsValid(text: Option<string>, entities: seq<Entity>)
    requires NonNegative(entities)
    ensures Commands(text, entities).Valid()
  {
    if text.None? {
      EmptyValid<string, seq<string>>();
    } else {
      CollectValid(Entries(text.value, entities), |entities|);
    }
  }

  /** The keys are exactly the keys of the `bot_command` entities; no other entity contributes one. */
  lemma CommandKeys(text: string, entities: seq<Entity>, k: string)
    requires NonNegative(entities)
    ensures k in Commands(Some(text), entities).values
            <==> exists i :: 0 <= i < |entities| && IsCommand(entities[i]) && Token(text, entities[i]) == k
  {
    var ps := Entries(text, entities);
    CollectKeys(ps, |entities|, k);
    if HasKey(ps, |entities|, k) {
      var i :| 0 <= i < |entities| && ps[i].Some? && ps[i].value.0 == k;
      assert IsCommand(entities[i]) && Token(text, entities[i]) == k;
    }
    if exists i :: 0 <= i < |entities| && IsCommand(entities[i]) && Token(text, entities[i]) == k {
      var i :| 0 <= i < |entities| && IsCommand(entities[i]) && Token(text, entities[i]) == k;
      assert ps[i].Some? && ps[i].value.0 == k;
    }
  }

  /** The first `bot_command` entity with a given key decides its parameters; later ones are ignored. */
  lemma FirstCommandWins(text: string, entities: seq<Entity>, i: nat)
    requires NonNegative(entities) && i < |entities|
    requires IsCommand(entities[i])
    requires forall j :: 0 <= j < i && IsCommand(entities[j]) ==> Token(text, entities[j]) != Token(text, entities[i])
    ensures Token(text, entities[i]) in Commands(Some(text), entities).values
    ensures Commands(Some(text), entities).values[Token(text, entities[i])] == Params(text, entities[i])
  {
    var ps := Entries(text, entities);
    assert ps[i] == Some((Token(text, entities[i]), Params(text, entities[i])));
    forall j | 0 <= j < i && ps[j].Some? ensures ps[j].value.0 != ps[i].value.0 {
      assert IsCommand(entities[j]) && ps[j].value.0 == Token(text, entities[j]);
    }
    CollectFirstWins(ps, |entities|, i);
  }

  /** An entity that is not a `bot_command` leaves the map unchanged. */
  lemma OtherEntitiesIgnored(text: string, entities: seq<Entity>, e: Entity)
    requires NonNegative(entities) && e.offset >= 0 && e.length >= 0
    requires !IsCommand(e)
    ensures Commands(Some(text), entities + [e]) == Commands(Some(text), entities)
  {
    var ps := Entries(text, entities + [e]);
    var qs := Entries(text, entities);
    assert ps[..|entities|] == qs[..|entities|];
    CollectPrefix(ps, qs, |entities|);
    assert ps[|entities|] == None;
  }

  /** Some `bot_command` entity before position `j` has key `k`. */
  predicate CommandBefore(text: string, entities: seq<Entity>, j: nat, k: string)
    requires NonNegative(entities) && j <= |entities|
  {
    exists i :: 0 <= i < j && IsCommand(entities[i]) && Token(text, entities[i]) == k
  }

  /**
   * The key order is the order in which the commands first occur: for key
   * `a` before key `b`, every entity for `b` has an entity for `a` before it.
   */
  lemma KeysInFirstOccurrenceOrder(text: string, entities: seq<Entity>, a: nat, b: nat)
    requires NonNegative(entities)
    requires a < b < |Commands(Some(text), entities).keys|
    ensures exists i, j :: 0 <= i < j < |entities| && IsCommand(entities[i]) && IsCommand(entities[j])
                        && Token(text, entities[i]) == Commands(Some(text), entities).keys[a]
                        && Token(text, entities[j]) == Commands(Some(text), entities).keys[b]
    ensures forall j :: 0 <= j < |entities| && IsCommand(entities[j]) && Token(text, entities[j]) == Commands(Some(text), entities).keys[b]
                        ==> CommandBefore(text, entities, j, Commands(Some(text), entities).keys[a])
  {
    var ps := Entries(text, entities);
    var keys := CollectUpTo(ps, |entities|).keys;
    assert Commands(Some(text), entities).keys == keys;
    CollectOrder(ps, |entities|, a, b);
    var i, j :| 0 <= i < j < |entities| && ps[i].Some? && ps[j].Some?
                && ps[i].value.0 == keys[a] && ps[j].value.0 == keys[b];
    assert ps[i] == Entry(text, entities[i]) && ps[j] == Entry(text, entities[j]);
    assert IsCommand(entities[i]) && Token(text, entities[i]) == keys[a];
    assert IsCommand(entities[j]) && Token(text, entities[j]) == keys[b];
    forall j | 0 <= j < |entities| && IsCommand(entities[j]) && Token(text, entities[j]) == keys[b]
      ensures CommandBefore(text, entities, j, keys[a])
    {
      assert ps[j] == Entry(text, entities[j]);
      assert HasKey(ps, j, keys[a]);
      var i :| 0 <= i < j && ps[i].Some? && ps[i].value.0 == keys[a];
      assert ps[i] == Entry(text, entities[i]);
      assert IsCommand(entities[i]) && Token(text, entities[i]) == keys[a];
    }
  }

  /** One more entity: a `bot_command` whose key is new is appended, anything else changes nothing. */
  lemma CommandStep(text: string, entities: seq<Entity>, n: nat)
    requires NonNegative(entities) && n < |entities|
    ensures var m := CollectUpTo(Entries(text, entities), n);
            var e := entities[n];
            CollectUpTo(Entries(text, entities), n + 1)
            == if IsCommand(e) && Token(text, e) !in m.values then Put(m, Token(text, e), Params(text, e)) else m
  {
    var ps := Entries(text, entities);
    assert ps[n] == Entry(text, entities[n]);
    CollectStep(ps, n);
  }

  /** `bot_commands` as the source computes it: one pass over the entities, filling the map. */
  method GetBotCommands(text: Option<string>, entities: seq<Entity>) returns (result: OrderedMap<string, seq<string>>)
    requires NonNegative(entities)
    ensures result == Commands(text, entities)
  {
    result := Empty();
    if text.Some? {
      var t := text.value;
      var i: nat := 0;
      while i < |entities|
        invariant i <= |entities|
        invariant result.keys == CollectUpTo(Entries(t, entities), i).keys
        invariant result.values == CollectUpTo(Entries(t, entities), i).values
      {
        var ent := entities[i];
        CommandStep(t, entities, i);
        if ent.entityType == "bot_command" {
          var cmd := Token(t, ent);
          var params := Params(t, ent);
          if cmd !in result.values {
            result := Put(result, cmd, params);
          }
        }
        i := i + 1;
      }
    }
  }

  /** `"/start hello world"` with a command over `"/start"` gives `{"/start": ["hello", "world"]}`. */
  lemma StartExample()
    ensures var e := Entity(0, 0, 0, "bot_command", 0, 6, None, None, None);
            var r := Commands(Some("/start hello world"), [e]);
            r.keys == ["/start"] && r.values == map["/start" := ["hello", "world"]]
  {
    var e := Entity(0, 0, 0, "bot_command", 0, 6, None, None, None);
    var text := "/start hello world";
    StartEntry(text, e);
    var ps := Entries(text, [e]);
    assert ps[0] == Some(("/start", ["hello", "world"]));
    CollectStep(ps, 0);
  }

  lemma StartEntry(text: string, e: Entity)
    requires text == "/start hello world" && e == Entity(0, 0, 0, "bot_command", 0, 6, None, None, None)
    ensures Entry(text, e) == Some(("/start", ["hello", "world"]))
  {
    assert Token(text, e) == "/start";
    assert SliceFrom(text, 6) == " hello world";
    StripUnchanged("hello world");
    assert Strip(" hello world") == "hello world" by {
      assert LeadingSpace(" hello world") == 1 by {
        assert LeadingSpace("hello world") == 0;
        assert " hello world"[1..] == "hello world";
      }
      assert " hello world"[1..] == "hello world";
    }
    SplitHelloWorld();
    assert Params(text, e) == ["hello", "world"];
  }

  lemma SplitHelloWorld()
    ensures Split("hello world", " ") == ["hello", "world"]
  {
    assert OccursAt("hello world", " ", 5);
    assert forall j :: 0 <= j < 5 ==> !OccursAt("hello world", " ", j) by {
      forall j | 0 <= j < 5 ensures !OccursAt("hello world", " ", j) {
        assert "hello world"[j] != ' ';
        assert "hello world"[j..j + 1][0] == "hello world"[j];
      }
    }
    FindLeftmost("hello world", " ", 5);
    assert "hello world"[..5] == "hello";
    assert "hello world"[6..] == "world";
    assert forall j :: !OccursAt("world", " ", j) by {
      forall j: nat ensures !OccursAt("world", " ", j) {
        if j + 1 <= 5 {
          assert "world"[j..j + 1][0] == "world"[j];
        }
      }
    }
    FindNone("world", " ");
  }

  /**
   * The key is `text[offset:length]`: a command that does not start the
   * message is cut short, so `"hi /start x"` with a command over `"/start"`
   * is keyed `"/st"`.
   */
  lemma OffsetLengthSlice()
    ensures Token("hi /start x", Entity(0, 0, 0, "bot_command", 3, 6, None, None, None)) == "/st"
  {
  }
}
