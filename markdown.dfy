/**
 * `TelegramMessage.get_markdown_v2_text`: re-emitting a message text with
 * its flat list of entities as nested Telegram MarkdownV2 markup.
 *
 * Entities are visited in the order of `EntityOrder` and identified by
 * their position in that order.  `ProcessF`/`LoopF` state what the inner
 * closure `process_entity` computes; the class `MarkdownRenderer` is that
 * closure with its shared `processed_entities` list, and its method is
 * proved to compute exactly what `ProcessF` states.
 */
module MarkdownV2 {
  import opened Wrappers
  import opened PyStr
  import opened MessageEntity
  import opened EntityOrder

  /** Characters escaped in ordinary text. */
  const EscapeCommon: string := "_*[]()~`>#+-=|{}.!"
  /** Characters escaped inside `code` and `pre` (backslash and backtick). */
  const EscapeCode: string := "\\`"
  /** Characters escaped in the URL part of a link (backslash and closing parenthesis). */
  const EscapeUrl: string := "\\)"

  /** `re.sub("([...])", r"\\\1", s)`: a backslash before every character of `cs`. */
  function Escape(cs: string, s: string): (r: string)
    ensures |r| == |s| + CountIn(cs, s)
  {
    if |s| == 0 then "" else (if s[0] in cs then ['\\', s[0]] else [s[0]]) + Escape(cs, s[1..])
  }

  /** Number of characters of `s` that belong to `cs`. */
  function CountIn(cs: string, s: string): nat {
    if |s| == 0 then 0 else (if s[0] in cs then 1 else 0) + CountIn(cs, s[1..])
  }

  /** Reading escaped text back: a backslash makes the next character literal. */
  function Unescape(t: string): string {
    if |t| == 0 then ""
    else if t[0] == '\\' && |t| >= 2 then [t[1]] + Unescape(t[2..])
    else [t[0]] + Unescape(t[1..])
  }

  /** Escaping works character by character, so it distributes over concatenation. */
  lemma {:induction false} EscapeConcat(cs: string, a: string, b: string)
    ensures Escape(cs, a + b) == Escape(cs, a) + Escape(cs, b)
  {
    if |a| > 0 {
      assert (a + b)[1..] == a[1..] + b;
      EscapeConcat(cs, a[1..], b);
    } else {
      assert a + b == b;
    }
  }

  /** Text without characters of `cs` is left unchanged. */
  lemma {:induction false} EscapeIdentity(cs: string, s: string)
    requires forall k :: 0 <= k < |s| ==> s[k] !in cs
    ensures Escape(cs, s) == s
  {
    if |s| > 0 {
      EscapeIdentity(cs, s[1..]);
    }
  }

  /**
   * Unescaping undoes escaping whenever the backslash is itself escaped or
   * absent from the text; with the common set a literal backslash is not
   * escaped, so text containing one need not survive the round trip.
   */
  lemma {:induction false} EscapeRoundTrip(cs: string, s: string)
    requires '\\' in cs || '\\' !in s
    ensures Unescape(Escape(cs, s)) == s
  {
    if |s| > 0 {
      assert '\\' !in s ==> '\\' !in s[1..] by {
        if '\\' in s[1..] { var k :| 0 <= k < |s[1..]| && s[1..][k] == '\\'; assert s[k + 1] == '\\'; }
      }
      EscapeRoundTrip(cs, s[1..]);
      var t := Escape(cs, s);
      if s[0] in cs {
        assert t == ['\\', s[0]] + Escape(cs, s[1..]);
        assert t[2..] == Escape(cs, s[1..]);
        assert Unescape(t) == [s[0]] + Unescape(t[2..]);
      } else {
        assert s[0] != '\\' by { assert s[0] in s; }
        assert t == [s[0]] + Escape(cs, s[1..]);
        assert t[1..] == Escape(cs, s[1..]);
        assert Unescape(t) == [s[0]] + Unescape(t[1..]);
      }
      assert s == [s[0]] + s[1..];
    }
  }

  /** The only failure of the renderer: `assert entity.url is not None` for a link without a URL. */
  datatype RenderError = AssertionFailure

  /** `"".join(chunks)`. */
  function Concat(chunks: seq<string>): string {
    if |chunks| == 0 then "" else Concat(chunks[..|chunks| - 1]) + chunks[|chunks| - 1]
  }

  predicate IsCodeLike(t: string) { t == "code" || t == "pre" }

  /**
   * `Wrap(e, x)` is the markup for entity `e` around its rendered content
   * `x` (`e == None` is the top-level call, returned as it is).
   */
  function Wrap(e: Option<Entity>, x: string): (r: Result<string, RenderError>)
    ensures e.None? ==> r == Ok(x)
    ensures r.Err? <==> e.Some? && (e.value.entityType == "url" || e.value.entityType == "text_link") && e.value.url.None?
  {
    match e
    case None => Ok(x)
    case Some(en) =>
      var t := en.entityType;
      if t == "bold" then Ok("*" + x + "*")
      else if t == "italic" then Ok("_" + x + "_")
      else if t == "underline" then Ok("__" + x + "__")
      else if t == "strikethrough" then Ok("~" + x + "~")
      else if t == "pre" then
        var lang := if en.language.Some? && |en.language.value| > 0 then en.language.value + "\n" else "";
        var prefix := if |x| > 0 && x[0] == '\\' && lang == "" then "\n" else "";
        Ok("```" + prefix + lang + x + "```")
      else if t == "code" then Ok("`" + x + "`")
      else if t == "url" || t == "text_link" then
        if en.url.None? then Err(AssertionFailure)
        else Ok("[" + x + "](" + Escape(EscapeUrl, en.url.value) + ")")
      else if t == "text_mention" && en.tmUserId.Some? then
        Ok("[" + x + "](tg://user?id=" + IntToDecimal(en.tmUserId.value) + ")")
      else Ok(x)
  }

  function UrlOrEmpty(en: Entity): string { if en.url.Some? then en.url.value else "" }

  /** The opening and closing markup of each entity kind, as laid out by the MarkdownV2 style. */
  function Delimiters(en: Entity, x: string): (string, string) {
    match en.entityType
    case "bold" => ("*", "*")
    case "italic" => ("_", "_")
    case "underline" => ("__", "__")
    case "strikethrough" => ("~", "~")
    case "code" => ("`", "`")
    case "pre" =>
      if en.language.Some? && |en.language.value| > 0 then ("```" + en.language.value + "\n", "```")
      else if |x| > 0 && x[0] == '\\' then ("```\n", "```")
      else ("```", "```")
    case "url" => ("[", "](" + Escape(EscapeUrl, UrlOrEmpty(en)) + ")")
    case "text_link" => ("[", "](" + Escape(EscapeUrl, UrlOrEmpty(en)) + ")")
    case "text_mention" =>
      if en.tmUserId.Some? then ("[", "](tg://user?id=" + IntToDecimal(en.tmUserId.value) + ")") else ("", "")
    case _ => ("", "")
  }

  /** Every kind that does not fail is wrapped in its delimiters; every other kind is left unwrapped. */
  lemma WrapByKind(en: Entity, x: string)
    ensures Wrap(Some(en), x).Ok? ==> Wrap(Some(en), x).value == Delimiters(en, x).0 + x + Delimiters(en, x).1
  {
    match en.entityType
    case "bold" =>
    case "italic" =>
    case "underline" =>
    case "strikethrough" =>
    case "code" =>
    case "pre" =>
      WrapPre(en, x);
    case "url" =>
    case "text_link" =>
    case "text_mention" =>
    case _ =>
  }

  /** A `pre` block: the language line when there is one, else a newline before content starting with a backslash. */
  lemma WrapPre(en: Entity, x: string)
    requires en.entityType == "pre"
    ensures Wrap(Some(en), x) == Ok(Delimiters(en, x).0 + x + Delimiters(en, x).1)
  {
    if en.language.Some? && |en.language.value| > 0 {
      var lang := en.language.value + "\n";
      assert lang != "" by { assert |lang| > 0; }
      assert "```" + "" + lang + x + "```" == "```" + en.language.value + "\n" + x + "```";
    } else if |x| > 0 && x[0] == '\\' {
      assert "```" + "\n" + "" + x == "```\n" + x;
    } else {
      assert "```" + "" + "" + x == "```" + x;
    }
  }

  // ---------------------------------------------------------------------
  // The closure `process_entity`, as a function of the shared state.

  /** What the closure sees: the text, the sorted entities and the start offset of the top-level call. */
  datatype Ctx = Ctx(text: string, sorted: seq<Entity>, offset: nat)

  /** Offsets and lengths are non-negative (negative Python slice indices are not modelled). */
  predicate ValidCtx(c: Ctx) {
    forall i :: 0 <= i < |c.sorted| ==> c.sorted[i].offset >= 0 && c.sorted[i].length >= 0
  }

  /** `e` is the top-level call (`None`) or an index into the sorted entities. */
  predicate ValidRef(c: Ctx, e: Option<nat>) {
    e.Some? ==> e.value < |c.sorted|
  }

  function EntityOf(c: Ctx, e: Option<nat>): Option<Entity>
    requires ValidRef(c, e)
  {
    if e.None? then None else Some(c.sorted[e.value])
  }

  /** `entity_offset`. */
  function Start(c: Ctx, e: Option<nat>): nat
    requires ValidCtx(c) && ValidRef(c, e)
  {
    if e.None? then c.offset else c.sorted[e.value].offset
  }

  /** `entity_offset + entity_length`: the top-level span ends at the end of the text. */
  function End(c: Ctx, e: Option<nat>): nat
    requires ValidCtx(c) && ValidRef(c, e)
  {
    if e.None? then |c.text| else c.sorted[e.value].offset + c.sorted[e.value].length
  }

  /** `re_escape`: the set used for text that precedes a child entity. */
  function ChunkEscape(c: Ctx, e: Option<nat>): string
    requires ValidRef(c, e)
  {
    if e.None? then EscapeCommon
    else if IsCodeLike(c.sorted[e.value].entityType) then EscapeCode
    else if c.sorted[e.value].entityType == "text_link" then EscapeUrl
    else EscapeCommon
  }

  function OptSet(e: Option<nat>): set<nat> { if e.None? then {} else {e.value} }
  function OptSeq(e: Option<nat>): seq<nat> { if e.None? then [] else [e.value] }

  /** The number of entities from index `k` on not yet marked as processed. */
  function Pending(c: Ctx, P: set<nat>, k: nat := 0): nat
    decreases |c.sorted| - k
  {
    if k >= |c.sorted| then 0 else (if k in P then 0 else 1) + Pending(c, P, k + 1)
  }

  /** The entities of a trace. */
  function Elems(s: seq<nat>): set<nat> {
    if |s| == 0 then {} else Elems(s[..|s| - 1]) + {s[|s| - 1]}
  }

  /** No entity occurs twice in a trace. */
  predicate NoDup(s: seq<nat>) {
    |s| == 0 || (s[|s| - 1] !in Elems(s[..|s| - 1]) && NoDup(s[..|s| - 1]))
  }

  /** Entity `j` lies inside the span of `e`, is not `e` and has not been processed. */
  predicate Nestable(c: Ctx, e: Option<nat>, P: set<nat>, j: nat)
    requires ValidCtx(c) && ValidRef(c, e) && j < |c.sorted|
  {
    && c.sorted[j].offset >= Start(c, e)
    && c.sorted[j].offset + c.sorted[j].length <= End(c, e)
    && Some(j) != e
    && j !in P
  }

  /** The nestable entities from index `k` on, in visiting order. */
  function Collect(c: Ctx, e: Option<nat>, P: set<nat>, k: nat): (r: seq<nat>)
    requires ValidCtx(c) && ValidRef(c, e) && k <= |c.sorted|
    ensures forall x :: x in r <==> k <= x < |c.sorted| && Nestable(c, e, P, x)
    ensures forall a, b :: 0 <= a < b < |r| ==> r[a] < r[b]
    decreases |c.sorted| - k
  {
    if k == |c.sorted| then []
    else
      var rest := Collect(c, e, P, k + 1);
      assert forall b :: 0 <= b < |rest| ==> rest[b] in rest;
      (if Nestable(c, e, P, k) then [k] else []) + rest
  }

  /** One step of the collecting loop: entity `k` is appended exactly when it is nestable. */
  lemma CollectStep(c: Ctx, e: Option<nat>, P: set<nat>, nested: seq<nat>, k: nat)
    requires ValidCtx(c) && ValidRef(c, e) && k < |c.sorted|
    ensures Nestable(c, e, P, k) ==> (nested + [k]) + Collect(c, e, P, k + 1) == nested + Collect(c, e, P, k)
    ensures !Nestable(c, e, P, k) ==> nested + Collect(c, e, P, k + 1) == nested + Collect(c, e, P, k)
  {
    var rest := Collect(c, e, P, k + 1);
    if Nestable(c, e, P, k) {
      assert (nested + [k]) + rest == nested + ([k] + rest);
    } else {
      assert [] + rest == rest;
    }
  }

  /** `nested_entities`: none for `code` and `pre`, otherwise every nestable entity. */
  function Children(c: Ctx, e: Option<nat>, P: set<nat>): (r: seq<nat>)
    requires ValidCtx(c) && ValidRef(c, e)
    ensures forall x :: x in r ==> x < |c.sorted| && x !in P
  {
    if e.None? || !IsCodeLike(c.sorted[e.value].entityType) then Collect(c, e, P, 0) else []
  }

  /** The rendered text (or the failure), the processed set afterwards, and the entities entered, in order. */
  datatype Rendered = Rendered(out: Result<string, RenderError>, processed: set<nat>, visits: seq<nat>)

  datatype LoopState = LoopState(out: Result<seq<string>, RenderError>, cursor: nat, processed: set<nat>, visits: seq<nat>)

  /** Marking more entities never increases the pending count. */
  lemma {:induction false} PendingMono(c: Ctx, P: set<nat>, Q: set<nat>, k: nat := 0)
    requires P <= Q
    ensures Pending(c, Q, k) <= Pending(c, P, k)
    decreases |c.sorted| - k
  {
    if k < |c.sorted| {
      PendingMono(c, P, Q, k + 1);
    }
  }

  /** Marking a pending entity decreases the pending count. */
  lemma {:induction false} PendingMark(c: Ctx, P: set<nat>, j: nat, k: nat := 0)
    requires k <= j < |c.sorted| && j !in P
    ensures Pending(c, P + {j}, k) < Pending(c, P, k)
    decreases |c.sorted| - k
  {
    if k < j {
      PendingMark(c, P, j, k + 1);
    } else {
      PendingMono(c, P, P + {j}, k + 1);
    }
  }

  /** A child's trace, made of entities not processed before it, extends the trace so far. */
  lemma TraceAppend(visits: seq<nat>, sub: seq<nat>, P: set<nat>, S: set<nat>)
    requires NoDup(visits) && Elems(visits) <= P
    requires NoDup(sub) && Elems(sub) == S - P && P <= S
    ensures NoDup(visits + sub) && Elems(visits + sub) == Elems(visits) + (S - P) && Elems(visits + sub) <= S
    ensures |visits| > 0 ==> (visits + sub)[0] == visits[0]
  {
    AppendVisits(visits, sub);
  }

  /** Composing the trace of one child with the trace of the rest of the loop. */
  lemma TraceExtend(visits: seq<nat>, visits2: seq<nat>, rv: seq<nat>, P: set<nat>, S: set<nat>, R: set<nat>)
    requires Elems(visits2) == Elems(visits) + (S - P) && P <= S <= R
    requires |visits| <= |visits2| && (|visits| > 0 ==> visits2[0] == visits[0])
    requires Elems(rv) == Elems(visits2) + (R - S)
    requires |visits2| <= |rv| && (|visits2| > 0 ==> rv[0] == visits2[0])
    ensures Elems(rv) == Elems(visits) + (R - P)
    ensures |visits| <= |rv| && (|visits| > 0 ==> rv[0] == visits[0])
  {
  }

  /** Appending two duplicate-free traces with disjoint elements. */
  lemma {:induction false} AppendVisits(a: seq<nat>, b: seq<nat>)
    requires NoDup(a) && NoDup(b) && Elems(a) !! Elems(b)
    ensures NoDup(a + b) && Elems(a + b) == Elems(a) + Elems(b)
    ensures (a + b)[..|a|] == a
    decreases |b|
  {
    if |b| == 0 {
      assert a + b == a;
    } else {
      var b1 := b[..|b| - 1];
      assert (a + b)[..|a + b| - 1] == a + b1;
      assert (a + b)[|a + b| - 1] == b[|b| - 1];
      AppendVisits(a, b1);
    }
  }

  /** The trace of `process_entity(e)` starts with `e` and holds exactly the newly processed entities. */
  lemma EntryVisits(e: Option<nat>, P: set<nat>, loopProcessed: set<nat>, visits: seq<nat>)
    requires e.Some? ==> e.value !in P
    requires P + OptSet(e) <= loopProcessed
    requires Elems(visits) == Elems(OptSeq(e)) + (loopProcessed - (P + OptSet(e)))
    requires |OptSeq(e)| <= |visits| && (|OptSeq(e)| > 0 ==> visits[0] == OptSeq(e)[0])
    ensures Elems(visits) == loopProcessed - P
    ensures e.Some? ==> |visits| > 0 && visits[0] == e.value
  {
    assert Elems(OptSeq(e)) == OptSet(e);
  }

  /**
   * `process_entity(e)` with `processed_entities == P` on entry: mark `e`,
   * collect its children, emit the text between them and the children's
   * own renderings, then the trailing text (always with the common set),
   * and wrap the result by kind.  `visits` records the entities entered, in
   * order; `RenderTrace` shows that each is entered at most once.
   */
  function ProcessF(c: Ctx, e: Option<nat>, P: set<nat>): (r: Rendered)
    requires ValidCtx(c) && ValidRef(c, e)
    requires e.Some? ==> e.value !in P
    ensures P + OptSet(e) <= r.processed
    decreases Pending(c, P + OptSet(e)), 1
  {
    var P1 := P + OptSet(e);
    var loop := LoopF(c, e, Children(c, e, P1), 0, Start(c, e), P1, [], OptSeq(e));
    if loop.out.Err? then Rendered(Err(loop.out.error), loop.processed, loop.visits)
    else
      var trailing := if loop.cursor < End(c, e) then [Escape(EscapeCommon, Slice(c.text, loop.cursor, End(c, e)))] else [];
      Rendered(Wrap(EntityOf(c, e), Concat(loop.out.value + trailing)), loop.processed, loop.visits)
  }

  /** The text before child `k` is emitted only when the cursor has not reached the child's start. */
  function Preceding(c: Ctx, e: Option<nat>, k: nat, cursor: nat, chunks: seq<string>): seq<string>
    requires ValidCtx(c) && ValidRef(c, e) && k < |c.sorted|
  {
    if cursor < c.sorted[k].offset then chunks + [Escape(ChunkEscape(c, e), Slice(c.text, cursor, c.sorted[k].offset))] else chunks
  }

  /**
   * The loop over `nested_entities` from position `i`, with the cursor
   * `current_offset`, the processed set `P`, the chunks and the entities
   * entered so far.  After a child the cursor moves to that child's end,
   * also when the child had already been processed by a deeper call.
   */
  function LoopF(c: Ctx, e: Option<nat>, kids: seq<nat>, i: nat, cursor: nat, P: set<nat>,
                 chunks: seq<string>, visits: seq<nat>): (r: LoopState)
    requires ValidCtx(c) && ValidRef(c, e)
    requires forall x :: x in kids ==> x < |c.sorted|
    requires i <= |kids|
    ensures P <= r.processed
    decreases Pending(c, P), 0, |kids| - i
  {
    if i == |kids| then LoopState(Ok(chunks), cursor, P, visits)
    else
      var k := kids[i];
      assert k in kids;
      var ent := c.sorted[k];
      var chunks1 := Preceding(c, e, k, cursor, chunks);
      if k !in P then
        PendingMark(c, P, k);
        var sub := ProcessF(c, Some(k), P);
        PendingMono(c, P + {k}, sub.processed);
        AfterChild(c, e, kids, i, sub, chunks1, visits)
      else LoopF(c, e, kids, i + 1, ent.offset + ent.length, P, chunks1, visits)
  }

  /**
   * The loop once child `kids[i]` has been rendered as `sub`: its failure
   * ends the loop, otherwise its text is added and the loop goes on after it.
   */
  function AfterChild(c: Ctx, e: Option<nat>, kids: seq<nat>, i: nat, sub: Rendered, chunks: seq<string>, visits: seq<nat>): (r: LoopState)
    requires ValidCtx(c) && ValidRef(c, e)
    requires forall x :: x in kids ==> x < |c.sorted|
    requires i < |kids|
    ensures sub.processed <= r.processed
    decreases Pending(c, sub.processed), 1
  {
    assert kids[i] in kids;
    var ent := c.sorted[kids[i]];
    if sub.out.Err? then LoopState(Err(sub.out.error), ent.offset, sub.processed, visits + sub.visits)
    else LoopF(c, e, kids, i + 1, ent.offset + ent.length, sub.processed, chunks + [sub.out.value], visits + sub.visits)
  }

  /**
   * Every entity is entered at most once: the trace of `process_entity(e)`
   * starts with `e`, has no repetition, and holds exactly the entities it
   * newly marked as processed.
   */
  lemma {:induction false} RenderTrace(c: Ctx, e: Option<nat>, P: set<nat>)
    requires ValidCtx(c) && ValidRef(c, e)
    requires e.Some? ==> e.value !in P
    ensures var r := ProcessF(c, e, P);
            && NoDup(r.visits) && Elems(r.visits) == r.processed - P
            && (e.Some? ==> |r.visits| > 0 && r.visits[0] == e.value)
    decreases Pending(c, P + OptSet(e)), 1
  {
    var P1 := P + OptSet(e);
    var loop := LoopF(c, e, Children(c, e, P1), 0, Start(c, e), P1, [], OptSeq(e));
    LoopTrace(c, e, Children(c, e, P1), 0, Start(c, e), P1, [], OptSeq(e));
    EntryVisits(e, P, loop.processed, loop.visits);
  }

  /** The loop extends the trace by the entities it newly marks, each once, and keeps its first entry. */
  lemma {:induction false} LoopTrace(c: Ctx, e: Option<nat>, kids: seq<nat>, i: nat, cursor: nat, P: set<nat>,
                                     chunks: seq<string>, visits: seq<nat>)
    requires ValidCtx(c) && ValidRef(c, e)
    requires forall x :: x in kids ==> x < |c.sorted|
    requires i <= |kids|
    requires NoDup(visits) && Elems(visits) <= P
    ensures var r := LoopF(c, e, kids, i, cursor, P, chunks, visits);
            && NoDup(r.visits) && Elems(r.visits) == Elems(visits) + (r.processed - P)
            && |visits| <= |r.visits| && (|visits| > 0 ==> r.visits[0] == visits[0])
    decreases Pending(c, P), 0, |kids| - i, 2
  {
    if i < |kids| {
      assert kids[i] in kids;
      if kids[i] in P {
        LoopTraceSkip(c, e, kids, i, cursor, P, chunks, visits);
      } else {
        LoopTraceEnter(c, e, kids, i, cursor, P, chunks, visits);
      }
    }
  }

  /** `LoopTrace` for a child that is skipped. */
  lemma {:induction false} LoopTraceSkip(c: Ctx, e: Option<nat>, kids: seq<nat>, i: nat, cursor: nat, P: set<nat>,
                                         chunks: seq<string>, visits: seq<nat>)
    requires ValidCtx(c) && ValidRef(c, e)
    requires forall x :: x in kids ==> x < |c.sorted|
    requires i < |kids| && kids[i] < |c.sorted| && kids[i] in P
    requires NoDup(visits) && Elems(visits) <= P
    ensures var r := LoopF(c, e, kids, i, cursor, P, chunks, visits);
            && NoDup(r.visits) && Elems(r.visits) == Elems(visits) + (r.processed - P)
            && |visits| <= |r.visits| && (|visits| > 0 ==> r.visits[0] == visits[0])
    decreases Pending(c, P), 0, |kids| - i, 1
  {
    var k := kids[i];
    var ent := c.sorted[k];
    LoopSkip(c, e, kids, i, cursor, P, chunks, visits);
    LoopTrace(c, e, kids, i + 1, ent.offset + ent.length, P, Preceding(c, e, k, cursor, chunks), visits);
  }

  /** `LoopTrace` for a child that is entered. */
  lemma {:induction false} LoopTraceEnter(c: Ctx, e: Option<nat>, kids: seq<nat>, i: nat, cursor: nat, P: set<nat>,
                                          chunks: seq<string>, visits: seq<nat>)
    requires ValidCtx(c) && ValidRef(c, e)
    requires forall x :: x in kids ==> x < |c.sorted|
    requires i < |kids| && kids[i] < |c.sorted| && kids[i] !in P
    requires NoDup(visits) && Elems(visits) <= P
    ensures var r := LoopF(c, e, kids, i, cursor, P, chunks, visits);
            && NoDup(r.visits) && Elems(r.visits) == Elems(visits) + (r.processed - P)
            && |visits| <= |r.visits| && (|visits| > 0 ==> r.visits[0] == visits[0])
    decreases Pending(c, P), 0, |kids| - i, 1
  {
    var k := kids[i];
    var ent := c.sorted[k];
    PendingMark(c, P, k);
    var sub := ProcessF(c, Some(k), P);
    RenderTrace(c, Some(k), P);
    TraceAppend(visits, sub.visits, P, sub.processed);
    if sub.out.Err? {
      LoopFail(c, e, kids, i, cursor, P, chunks, visits);
    } else {
      LoopEnter(c, e, kids, i, cursor, P, chunks, visits);
      PendingMono(c, P + {k}, sub.processed);
      LoopTraceRest(c, e, kids, i, ent.offset + ent.length, P, sub.processed,
                    Preceding(c, e, k, cursor, chunks) + [sub.out.value], visits, visits + sub.visits);
    }
  }

  /** The rest of the loop after an entered child, whose trace took the processed set from `P` to `S`. */
  lemma {:induction false} LoopTraceRest(c: Ctx, e: Option<nat>, kids: seq<nat>, i: nat, cursor: nat, P: set<nat>, S: set<nat>,
                                         chunks: seq<string>, visits: seq<nat>, visits2: seq<nat>)
    requires ValidCtx(c) && ValidRef(c, e)
    requires forall x :: x in kids ==> x < |c.sorted|
    requires i < |kids| && P <= S && Pending(c, S) < Pending(c, P)
    requires NoDup(visits2) && Elems(visits2) == Elems(visits) + (S - P) && Elems(visits2) <= S
    requires |visits| <= |visits2| && (|visits| > 0 ==> visits2[0] == visits[0])
    ensures var r := LoopF(c, e, kids, i + 1, cursor, S, chunks, visits2);
            && NoDup(r.visits) && Elems(r.visits) == Elems(visits) + (r.processed - P)
            && |visits| <= |r.visits| && (|visits| > 0 ==> r.visits[0] == visits[0])
    decreases Pending(c, P), 0, |kids| - i, 0
  {
    LoopTrace(c, e, kids, i + 1, cursor, S, chunks, visits2);
    var r := LoopF(c, e, kids, i + 1, cursor, S, chunks, visits2);
    TraceExtend(visits, visits2, r.visits, P, S, r.processed);
  }

  /** How `process_entity(e)` ends, given the outcome `loop` of its loop over the children. */
  lemma ProcessResult(c: Ctx, e: Option<nat>, P: set<nat>, loop: LoopState)
    requires ValidCtx(c) && ValidRef(c, e)
    requires e.Some? ==> e.value !in P
    requires loop == LoopF(c, e, Children(c, e, P + OptSet(e)), 0, Start(c, e), P + OptSet(e), [], OptSeq(e))
    ensures ProcessF(c, e, P).processed == loop.processed && ProcessF(c, e, P).visits == loop.visits
    ensures loop.out.Err? ==> ProcessF(c, e, P).out == Err(loop.out.error)
    ensures loop.out.Ok? && loop.cursor < End(c, e) ==>
              ProcessF(c, e, P).out == Wrap(EntityOf(c, e), Concat(loop.out.value + [Escape(EscapeCommon, Slice(c.text, loop.cursor, End(c, e)))]))
    ensures loop.out.Ok? && loop.cursor >= End(c, e) ==>
              ProcessF(c, e, P).out == Wrap(EntityOf(c, e), Concat(loop.out.value))
  {
    if loop.out.Ok? && loop.cursor >= End(c, e) {
      assert loop.out.value + [] == loop.out.value;
    }
  }

  /** A child that a deeper call already rendered only moves the cursor to its end. */
  lemma LoopSkip(c: Ctx, e: Option<nat>, kids: seq<nat>, i: nat, cursor: nat, P: set<nat>, chunks: seq<string>, visits: seq<nat>)
    requires ValidCtx(c) && ValidRef(c, e)
    requires forall x :: x in kids ==> x < |c.sorted|
    requires i < |kids| && kids[i] < |c.sorted| && kids[i] in P
    ensures LoopF(c, e, kids, i, cursor, P, chunks, visits)
            == LoopF(c, e, kids, i + 1, c.sorted[kids[i]].offset + c.sorted[kids[i]].length, P,
                     Preceding(c, e, kids[i], cursor, chunks), visits)
  {
    assert kids[i] in kids;
  }

  /** After the last child the loop yields the chunks, the cursor, the processed set and the trace. */
  lemma LoopDone(c: Ctx, e: Option<nat>, kids: seq<nat>, cursor: nat, P: set<nat>, chunks: seq<string>, visits: seq<nat>)
    requires ValidCtx(c) && ValidRef(c, e)
    requires forall x :: x in kids ==> x < |c.sorted|
    ensures LoopF(c, e, kids, |kids|, cursor, P, chunks, visits) == LoopState(Ok(chunks), cursor, P, visits)
  {
  }

  /** The last child, entered and rendered as `x`, ends the loop. */
  lemma LoopLastChild(c: Ctx, e: Option<nat>, kids: seq<nat>, i: nat, cursor: nat, P: set<nat>, chunks: seq<string>, visits: seq<nat>,
                      x: string, S: set<nat>, V: seq<nat>)
    requires ValidCtx(c) && ValidRef(c, e)
    requires forall y :: y in kids ==> y < |c.sorted|
    requires i + 1 == |kids| && kids[i] < |c.sorted| && kids[i] !in P
    requires ProcessF(c, Some(kids[i]), P) == Rendered(Ok(x), S, V)
    ensures LoopF(c, e, kids, i, cursor, P, chunks, visits)
            == LoopState(Ok(Preceding(c, e, kids[i], cursor, chunks) + [x]), c.sorted[kids[i]].offset + c.sorted[kids[i]].length, S, visits + V)
  {
    LoopEnter(c, e, kids, i, cursor, P, chunks, visits);
    LoopDone(c, e, kids, c.sorted[kids[i]].offset + c.sorted[kids[i]].length, S, Preceding(c, e, kids[i], cursor, chunks) + [x], visits + V);
  }

  /** The last child, already rendered, ends the loop with the cursor at its end. */
  lemma LoopSkipLast(c: Ctx, e: Option<nat>, kids: seq<nat>, i: nat, cursor: nat, P: set<nat>, chunks: seq<string>, visits: seq<nat>)
    requires ValidCtx(c) && ValidRef(c, e)
    requires forall y :: y in kids ==> y < |c.sorted|
    requires i + 1 == |kids| && kids[i] < |c.sorted| && kids[i] in P
    ensures LoopF(c, e, kids, i, cursor, P, chunks, visits)
            == LoopState(Ok(Preceding(c, e, kids[i], cursor, chunks)), c.sorted[kids[i]].offset + c.sorted[kids[i]].length, P, visits)
  {
    LoopSkip(c, e, kids, i, cursor, P, chunks, visits);
    LoopDone(c, e, kids, c.sorted[kids[i]].offset + c.sorted[kids[i]].length, P, Preceding(c, e, kids[i], cursor, chunks), visits);
  }

  /** A child rendered successfully contributes its text and its trace, and the loop goes on. */
  lemma LoopEnter(c: Ctx, e: Option<nat>, kids: seq<nat>, i: nat, cursor: nat, P: set<nat>, chunks: seq<string>, visits: seq<nat>)
    requires ValidCtx(c) && ValidRef(c, e)
    requires forall x :: x in kids ==> x < |c.sorted|
    requires i < |kids| && kids[i] < |c.sorted| && kids[i] !in P
    requires ProcessF(c, Some(kids[i]), P).out.Ok?
    ensures var sub := ProcessF(c, Some(kids[i]), P);
            var ent := c.sorted[kids[i]];
            LoopF(c, e, kids, i, cursor, P, chunks, visits)
            == LoopF(c, e, kids, i + 1, ent.offset + ent.length, sub.processed,
                     Preceding(c, e, kids[i], cursor, chunks) + [sub.out.value], visits + sub.visits)
  {
    var k := kids[i];
    assert k in kids;
    assert LoopF(c, e, kids, i, cursor, P, chunks, visits)
           == AfterChild(c, e, kids, i, ProcessF(c, Some(k), P), Preceding(c, e, k, cursor, chunks), visits);
  }


  /** A child whose rendering fails ends the loop with its error. */
  lemma LoopFail(c: Ctx, e: Option<nat>, kids: seq<nat>, i: nat, cursor: nat, P: set<nat>, chunks: seq<string>, visits: seq<nat>)
    requires ValidCtx(c) && ValidRef(c, e)
    requires forall x :: x in kids ==> x < |c.sorted|
    requires i < |kids| && kids[i] < |c.sorted| && kids[i] !in P
    requires ProcessF(c, Some(kids[i]), P).out.Err?
    ensures var sub := ProcessF(c, Some(kids[i]), P);
            LoopF(c, e, kids, i, cursor, P, chunks, visits)
            == LoopState(Err(sub.out.error), c.sorted[kids[i]].offset, sub.processed, visits + sub.visits)
  {
    assert kids[i] in kids;
  }

  /** One entered child, stated on its rendered text `out` and processed set `P1`: the loop stops on a failure and goes on otherwise. */
  lemma LoopChild(c: Ctx, e: Option<nat>, kids: seq<nat>, i: nat, cursor: nat, P: set<nat>, chunks: seq<string>, visits: seq<nat>,
                  out: Result<string, RenderError>, P1: set<nat>, visits1: seq<nat>)
    requires ValidCtx(c) && ValidRef(c, e)
    requires forall x :: x in kids ==> x < |c.sorted|
    requires i < |kids| && kids[i] < |c.sorted| && kids[i] !in P
    requires out == ProcessF(c, Some(kids[i]), P).out && P1 == ProcessF(c, Some(kids[i]), P).processed
    requires visits1 == visits + ProcessF(c, Some(kids[i]), P).visits
    ensures out.Ok? ==> LoopF(c, e, kids, i, cursor, P, chunks, visits)
                        == LoopF(c, e, kids, i + 1, c.sorted[kids[i]].offset + c.sorted[kids[i]].length, P1,
                                 Preceding(c, e, kids[i], cursor, chunks) + [out.value], visits1)
    ensures out.Err? ==> LoopF(c, e, kids, i, cursor, P, chunks, visits)
                         == LoopState(Err(out.error), c.sorted[kids[i]].offset, P1, visits1)
  {
    if out.Ok? {
      LoopEnter(c, e, kids, i, cursor, P, chunks, visits);
    } else {
      LoopFail(c, e, kids, i, cursor, P, chunks, visits);
    }
  }

  /** `get_markdown_v2_text(offset)`: text that is not a string is returned as it is. */
  function MarkdownV2Text(text: Option<string>, entities: seq<Entity>, offset: nat): (r: Result<Option<string>, RenderError>)
    requires forall i :: 0 <= i < |entities| ==> entities[i].offset >= 0 && entities[i].length >= 0
    ensures text.None? <==> r == Ok(None)
  {
    if text.None? then Ok(None)
    else
      var c := Ctx(text.value, SortEntities(entities), offset);
      SortedCtxValid(text.value, entities, offset);
      var r := ProcessF(c, None, {});
      if r.out.Err? then Err(r.out.error) else Ok(Some(r.out.value))
  }

  lemma SortedCtxValid(text: string, entities: seq<Entity>, offset: nat)
    requires forall i :: 0 <= i < |entities| ==> entities[i].offset >= 0 && entities[i].length >= 0
    ensures ValidCtx(Ctx(text, SortEntities(entities), offset))
  {
    SortIsPermutation(entities);
  }

  // ---------------------------------------------------------------------
  // What the renderer promises.

  /** `"".join([x]) == x`. */
  lemma ConcatOne(x: string)
    ensures Concat([x]) == x
  {
    assert [x][..0] == [];
  }

  /** A message without entities renders as `text[offset:]` with the common set escaped, and nothing else. */
  lemma NoEntitiesEscapesRest(text: string, offset: nat)
    ensures MarkdownV2Text(Some(text), [], offset) == Ok(Some(Escape(EscapeCommon, SliceFrom(text, offset))))
  {
    var c := Ctx(text, SortEntities([]), offset);
    var loop := EmptyLoop(text, offset);
    ProcessResult(c, None, {}, loop);
    TopBody(text, offset);
  }

  /** Without entities the top-level loop has nothing to visit. */
  lemma EmptyLoop(text: string, offset: nat) returns (loop: LoopState)
    ensures var c := Ctx(text, SortEntities([]), offset);
            && ValidCtx(c) && {} + OptSet(None) == {} && OptSeq(None) == []
            && loop == LoopF(c, None, Children(c, None, {} + OptSet(None)), 0, Start(c, None), {} + OptSet(None), [], OptSeq(None))
            && loop == LoopState(Ok([]), offset, {}, [])
  {
    var c := Ctx(text, SortEntities([]), offset);
    assert c.sorted == [];
    SortedCtxValid(text, [], offset);
    assert Children(c, None, {}) == [];
    loop := LoopF(c, None, [], 0, offset, {}, [], []);
    LoopDone(c, None, [], offset, {}, [], []);
  }

  /** The top-level content without children is the escaped rest of the text. */
  lemma TopBody(text: string, offset: nat)
    ensures var trailing := if offset < |text| then [Escape(EscapeCommon, Slice(text, offset, |text|))] else [];
            Concat([] + trailing) == Escape(EscapeCommon, SliceFrom(text, offset))
  {
    if offset < |text| {
      ConcatOne(Escape(EscapeCommon, Slice(text, offset, |text|)));
      assert [] + [Escape(EscapeCommon, Slice(text, offset, |text|))] == [Escape(EscapeCommon, Slice(text, offset, |text|))];
    } else {
      assert SliceFrom(text, offset) == [];
      assert Concat([]) == "";
    }
  }

  /**
   * `code` and `pre` never collect nested entities: rendering one marks only
   * itself, and its whole content is the trailing chunk, escaped with the
   * common set.
   */
  lemma CodeIsOpaque(c: Ctx, i: nat, P: set<nat>)
    requires ValidCtx(c) && i < |c.sorted| && i !in P
    requires IsCodeLike(c.sorted[i].entityType)
    ensures var r := ProcessF(c, Some(i), P);
            var en := c.sorted[i];
            var body := if en.length > 0 then Escape(EscapeCommon, Slice(c.text, en.offset, en.offset + en.length)) else "";
            && r.processed == P + {i}
            && r.visits == [i]
            && r.out == Wrap(Some(en), body)
  {
    var en := c.sorted[i];
    var loop := CodeLoop(c, i, P);
    ProcessResult(c, Some(i), P, loop);
    CodeBody(c, i);
  }

  /** The loop of a `code` or `pre` entity has no child to visit. */
  lemma CodeLoop(c: Ctx, i: nat, P: set<nat>) returns (loop: LoopState)
    requires ValidCtx(c) && i < |c.sorted| && i !in P
    requires IsCodeLike(c.sorted[i].entityType)
    ensures P + OptSet(Some(i)) == P + {i} && OptSeq(Some(i)) == [i]
    ensures loop == LoopF(c, Some(i), Children(c, Some(i), P + OptSet(Some(i))), 0, Start(c, Some(i)), P + OptSet(Some(i)), [], OptSeq(Some(i)))
    ensures loop == LoopState(Ok([]), c.sorted[i].offset, P + {i}, [i])
  {
    var P1 := P + {i};
    assert Children(c, Some(i), P1) == [];
    loop := LoopF(c, Some(i), [], 0, c.sorted[i].offset, P1, [], [i]);
    LoopDone(c, Some(i), [], c.sorted[i].offset, P1, [], [i]);
  }

  /** The content of an entity without children is its one trailing chunk, or nothing. */
  lemma CodeBody(c: Ctx, i: nat)
    requires ValidCtx(c) && i < |c.sorted|
    ensures var en := c.sorted[i];
            var trailing := if en.offset < End(c, Some(i)) then [Escape(EscapeCommon, Slice(c.text, en.offset, End(c, Some(i))))] else [];
            Concat([] + trailing) == if en.length > 0 then Escape(EscapeCommon, Slice(c.text, en.offset, en.offset + en.length)) else ""
  {
    var en := c.sorted[i];
    if en.length > 0 {
      var body := Escape(EscapeCommon, Slice(c.text, en.offset, en.offset + en.length));
      ConcatOne(body);
      assert [] + [body] == [body];
    } else {
      assert Concat([]) == "";
    }
  }

  /**
   * Of two entities of a message that start at the same offset, the longer
   * one is visited first and, unless it is `code` or `pre`, collects the
   * shorter one as a child when it is rendered.
   */
  lemma LongerCollectsShorter(text: string, entities: seq<Entity>, offset: nat, a: nat, b: nat, P: set<nat>)
    requires forall i :: 0 <= i < |entities| ==> entities[i].offset >= 0 && entities[i].length >= 0
    requires a < |entities| && b < |entities| && a !in P && b !in P
    requires SortEntities(entities)[a].offset == SortEntities(entities)[b].offset
    requires SortEntities(entities)[a].length > SortEntities(entities)[b].length
    requires !IsCodeLike(SortEntities(entities)[a].entityType)
    ensures a < b
    ensures var c := Ctx(text, SortEntities(entities), offset);
            ValidCtx(c) && b in Children(c, Some(a), P + {a})
  {
    LongerFirst(entities, a, b);
    SortedCtxValid(text, entities, offset);
    var c := Ctx(text, SortEntities(entities), offset);
    assert Nestable(c, Some(a), P + {a}, b);
  }

  /** The example of `CursorRewindRepeatsText`: bold over `"abcd"`, italic over `"b"`. */
  const ExampleBold := Entity(0, 0, 0, "bold", 0, 4, None, None, None)
  const ExampleItalic := Entity(0, 0, 0, "italic", 1, 1, None, None, None)
  const ExampleCtx := Ctx("abcd", [ExampleBold, ExampleItalic], 0)

  lemma ExampleSorted()
    ensures SortEntities([ExampleBold, ExampleItalic]) == [ExampleBold, ExampleItalic]
  {
    var es := [ExampleBold, ExampleItalic];
    assert SortOrderUpTo(es, 0) == [];
    assert SortOrderUpTo(es, 1) == [0];
    assert !Before(es, 1, 0);
    assert Insert(es, 1, [0]) == [0] + Insert(es, 1, []);
    assert SortOrder(es) == [0, 1];
  }

  lemma ExampleEscapes()
    ensures Escape(EscapeCommon, "a") == "a" && Escape(EscapeCommon, "b") == "b"
    ensures Escape(EscapeCommon, "cd") == "cd"
  {
    EscapeIdentity(EscapeCommon, "a");
    EscapeIdentity(EscapeCommon, "b");
    EscapeIdentity(EscapeCommon, "cd");
  }

  lemma ExampleWraps()
    ensures Wrap(Some(ExampleItalic), "b") == Ok("_b_")
    ensures Wrap(Some(ExampleBold), "a_b_cd") == Ok("*a_b_cd*")
  {
    assert "_" + "b" + "_" == "_b_";
    assert "*" + "a_b_cd" + "*" == "*a_b_cd*";
  }

  lemma ExampleValid()
    ensures ValidCtx(ExampleCtx)
  {
    assert ExampleCtx.sorted[0] == ExampleBold && ExampleCtx.sorted[1] == ExampleItalic;
  }

  /** Inside the italic entity there is nothing to collect. */
  lemma ExampleChildrenItalic()
    ensures ValidCtx(ExampleCtx) && Children(ExampleCtx, Some(1), {0, 1}) == []
  {
    ExampleValid();
    var c := ExampleCtx;
    assert !Nestable(c, Some(1), {0, 1}, 1) && !Nestable(c, Some(1), {0, 1}, 0);
    assert Collect(c, Some(1), {0, 1}, 1) == [];
  }

  /** The bold entity collects the italic one. */
  lemma ExampleChildrenBold()
    ensures ValidCtx(ExampleCtx) && Children(ExampleCtx, Some(0), {0}) == [1]
  {
    ExampleValid();
    var c := ExampleCtx;
    assert Nestable(c, Some(0), {0}, 1) && !Nestable(c, Some(0), {0}, 0);
    assert Collect(c, Some(0), {0}, 1) == [1];
  }

  /** The top level collects both entities. */
  lemma ExampleChildrenTop()
    ensures ValidCtx(ExampleCtx) && Children(ExampleCtx, None, {}) == [0, 1]
  {
    ExampleValid();
    var c := ExampleCtx;
    assert Nestable(c, None, {}, 1) && Nestable(c, None, {}, 0);
    assert Collect(c, None, {}, 1) == [1];
  }

  lemma ExampleItalicRendered()
    ensures ValidCtx(ExampleCtx) && ProcessF(ExampleCtx, Some(1), {0}) == Rendered(Ok("_b_"), {0, 1}, [1])
  {
    var c := ExampleCtx;
    ExampleChildrenItalic();
    assert {0} + OptSet(Some(1)) == {0, 1};
    var loop := LoopF(c, Some(1), [], 0, 1, {0, 1}, [], [1]);
    LoopDone(c, Some(1), [], 1, {0, 1}, [], [1]);
    ProcessResult(c, Some(1), {0}, loop);
    assert Slice(c.text, 1, 2) == "b";
    ExampleEscapes();
    ConcatOne("b");
    assert [] + ["b"] == ["b"];
    ExampleWraps();
  }

  lemma ExampleBoldLoop()
    ensures ValidCtx(ExampleCtx)
    ensures LoopF(ExampleCtx, Some(0), [1], 0, 0, {0}, [], [0]) == LoopState(Ok(["a", "_b_"]), 2, {0, 1}, [0, 1])
  {
    var c := ExampleCtx;
    ExampleItalicRendered();
    LoopLastChild(c, Some(0), [1], 0, 0, {0}, [], [0], "_b_", {0, 1}, [1]);
    ExamplePreceding();
    assert ["a"] + ["_b_"] == ["a", "_b_"] && [0] + [1] == [0, 1];
  }

  /** Inside the bold entity, the text before the italic one is `"a"`. */
  lemma ExamplePreceding()
    ensures ValidCtx(ExampleCtx) && Preceding(ExampleCtx, Some(0), 1, 0, []) == ["a"]
  {
    ExampleValid();
    assert Slice(ExampleCtx.text, 0, 1) == "a";
    ExampleEscapes();
  }

  lemma ExampleBoldRendered()
    ensures ValidCtx(ExampleCtx) && ProcessF(ExampleCtx, Some(0), {}) == Rendered(Ok("*a_b_cd*"), {0, 1}, [0, 1])
  {
    var c := ExampleCtx;
    ExampleBoldLoop();
    ExampleChildrenBold();
    assert {} + OptSet(Some(0)) == {0};
    var loop := LoopF(c, Some(0), [1], 0, 0, {0}, [], [0]);
    ProcessResult(c, Some(0), {}, loop);
    ExampleBoldText();
  }

  lemma ExampleBoldText()
    ensures Wrap(Some(ExampleBold), Concat(["a", "_b_"] + [Escape(EscapeCommon, Slice(ExampleCtx.text, 2, 4))])) == Ok("*a_b_cd*")
  {
    assert Slice(ExampleCtx.text, 2, 4) == "cd";
    ExampleEscapes();
    assert ["a", "_b_"] + ["cd"] == ["a", "_b_", "cd"];
    assert Concat(["a", "_b_", "cd"]) == "a_b_cd" by {
      assert ["a", "_b_", "cd"][..2] == ["a", "_b_"];
      assert ["a", "_b_"][..1] == ["a"];
      ConcatOne("a");
    }
    ExampleWraps();
  }

  lemma ExampleTopLoop()
    ensures ValidCtx(ExampleCtx)
    ensures LoopF(ExampleCtx, None, [0, 1], 0, 0, {}, [], []) == LoopState(Ok(["*a_b_cd*"]), 2, {0, 1}, [0, 1])
  {
    ExampleTopFirst(ExampleCtx);
    ExampleTopSecond();
  }

  /**
   * The top level renders the bold entity first.  The context is a
   * parameter equal to the example's, so that the solver does not evaluate
   * the rendering functions on literal arguments.
   */
  lemma ExampleTopFirst(c: Ctx)
    requires c == ExampleCtx
    ensures ValidCtx(c)
    ensures LoopF(c, None, [0, 1], 0, 0, {}, [], []) == LoopF(c, None, [0, 1], 1, 4, {0, 1}, ["*a_b_cd*"], [0, 1])
  {
    ExampleTopFirstParts(c);
    LoopEnter(c, None, [0, 1], 0, 0, {}, [], []);
    assert [] + ["*a_b_cd*"] == ["*a_b_cd*"] && [] + [0, 1] == [0, 1];
  }

  lemma ExampleTopFirstParts(c: Ctx)
    requires c == ExampleCtx
    ensures ValidCtx(c) && ValidRef(c, None) && forall x :: x in [0, 1] ==> x < |c.sorted|
    ensures var k := [0, 1][0];
            k == 0 && k < |c.sorted| && ProcessF(c, Some(k), {}) == Rendered(Ok("*a_b_cd*"), {0, 1}, [0, 1])
            && c.sorted[k].offset + c.sorted[k].length == 4 && Preceding(c, None, k, 0, []) == []
  {
    ExampleBoldRendered();
  }

  /** The italic entity is already processed: it is skipped, and the cursor moves back to its end. */
  lemma ExampleTopSecond()
    ensures ValidCtx(ExampleCtx)
    ensures LoopF(ExampleCtx, None, [0, 1], 1, 4, {0, 1}, ["*a_b_cd*"], [0, 1]) == LoopState(Ok(["*a_b_cd*"]), 2, {0, 1}, [0, 1])
  {
    var c := ExampleCtx;
    ExampleValid();
    LoopSkipLast(c, None, [0, 1], 1, 4, {0, 1}, ["*a_b_cd*"], [0, 1]);
    assert Preceding(c, None, 1, 4, ["*a_b_cd*"]) == ["*a_b_cd*"];
  }

  /**
   * After a child the cursor moves to that child's end even when a deeper
   * call already rendered it, so it can move backwards: in `"abcd"` with
   * bold over the whole text and italic over `"b"`, the italic entity is
   * rendered inside the bold one, the top level then skips it and rewinds
   * the cursor to its end, and `"cd"` is emitted twice.
   */
  lemma CursorRewindRepeatsText()
    ensures MarkdownV2Text(Some("abcd"), [ExampleBold, ExampleItalic], 0) == Ok(Some("*a_b_cd*cd"))
  {
    var c := ExampleCtx;
    ExampleSorted();
    ExampleTopLoop();
    ExampleChildrenTop();
    assert {} + OptSet(None) == {};
    var loop := LoopF(c, None, [0, 1], 0, 0, {}, [], []);
    ProcessResult(c, None, {}, loop);
    ExampleTopText();
  }

  lemma ExampleTopText()
    ensures Concat(["*a_b_cd*"] + [Escape(EscapeCommon, Slice(ExampleCtx.text, 2, |ExampleCtx.text|))]) == "*a_b_cd*cd"
  {
    assert Slice(ExampleCtx.text, 2, 4) == "cd";
    ExampleEscapes();
    assert ["*a_b_cd*"] + ["cd"] == ["*a_b_cd*", "cd"];
    assert ["*a_b_cd*", "cd"][..1] == ["*a_b_cd*"];
    ConcatOne("*a_b_cd*");
  }

  // ---------------------------------------------------------------------
  // The closure with its shared list of processed entities.

  /**
   * One call of `get_markdown_v2_text`: the message text, the sorted
   * entities and the start offset are fixed; `processed` is
   * `processed_entities`, shared by all recursive calls.
   */
  class MarkdownRenderer {
    const text: string
    const sortedEntities: seq<Entity>
    const offset: nat
    var processed: set<nat>

    function Context(): Ctx { Ctx(text, sortedEntities, offset) }

    constructor (text: string, entities: seq<Entity>, offset: nat)
      ensures this.text == text && sortedEntities == SortEntities(entities) && this.offset == offset
      ensures processed == {}
    {
      this.text := text;
      this.sortedEntities := SortEntities(entities);
      this.offset := offset;
      this.processed := {};
    }

    /** The first loop of `process_entity`: the unprocessed entities inside the span of `e`, in visiting order. */
    method CollectNested(e: Option<nat>) returns (nested: seq<nat>)
      requires ValidCtx(Context()) && ValidRef(Context(), e)
      ensures nested == Collect(Context(), e, processed, 0)
    {
      var c := Context();
      var entityOffset := Start(c, e);
      var entityEnd := End(c, e);
      nested := [];
      var k: nat := 0;
      while k < |sortedEntities|
        invariant 0 <= k <= |sortedEntities|
        invariant nested + Collect(c, e, processed, k) == Collect(c, e, processed, 0)
      {
        var ne := sortedEntities[k];
        CollectStep(c, e, processed, nested, k);
        if ne.offset >= entityOffset && ne.offset + ne.length <= entityEnd && Some(k) != e && k !in processed {
          nested := nested + [k];
        }
        k := k + 1;
      }
    }

    /** `process_entity(entity)`: renders `e` and marks it and everything it renders as processed. */
    method ProcessEntity(e: Option<nat>) returns (out: Result<string, RenderError>)
      requires ValidCtx(Context()) && ValidRef(Context(), e)
      requires e.Some? ==> e.value !in processed
      modifies this
      ensures out == ProcessF(Context(), e, old(processed)).out
      ensures processed == ProcessF(Context(), e, old(processed)).processed
      decreases Pending(Context(), processed + OptSet(e)), 2
    {
      var c := Context();
      ghost var P0 := processed;
      var entityEnd := End(c, e);
      if e.Some? {
        processed := processed + {e.value};
      }
      assert processed == P0 + OptSet(e);

      var nested: seq<nat> := [];
      if e.None? || !IsCodeLike(sortedEntities[e.value].entityType) {
        nested := CollectNested(e);
      }
      assert nested == Children(c, e, processed);

      var chunks, currentOffset, visits := RenderNested(e, nested, OptSeq(e));
      ProcessResult(c, e, P0, LoopState(chunks, currentOffset, processed, visits));
      if chunks.Err? {
        return Err(chunks.error);
      }
      var parts := chunks.value;
      if currentOffset < entityEnd {
        parts := parts + [Escape(EscapeCommon, Slice(text, currentOffset, entityEnd))];
      }
      out := Wrap(EntityOf(c, e), Concat(parts));
    }

    /**
     * The second loop of `process_entity`: the text before each child, then
     * the child itself unless a deeper call has already rendered it.  An
     * exception raised by a child ends the loop.
     */
    method RenderNested(e: Option<nat>, nested: seq<nat>, ghost visits0: seq<nat>)
      returns (out: Result<seq<string>, RenderError>, currentOffset: nat, ghost visits: seq<nat>)
      requires ValidCtx(Context()) && ValidRef(Context(), e)
      requires forall x :: x in nested ==> x < |sortedEntities|
      modifies this
      ensures LoopState(out, currentOffset, processed, visits)
              == LoopF(Context(), e, nested, 0, Start(Context(), e), old(processed), [], visits0)
      decreases Pending(Context(), processed), 1
    {
      var c := Context();
      ghost var P1 := processed;
      var chunks: seq<string> := [];
      currentOffset := Start(c, e);
      visits := visits0;
      ghost var loop := LoopF(c, e, nested, 0, currentOffset, processed, [], visits0);
      var failure: Option<RenderError> := None;
      var i: nat := 0;
      while i < |nested| && failure.None?
        invariant 0 <= i <= |nested|
        invariant Pending(c, processed) <= Pending(c, P1)
        invariant failure.None? ==> LoopF(c, e, nested, i, currentOffset, processed, chunks, visits) == loop
        invariant failure.Some? ==> LoopState(Err(failure.value), currentOffset, processed, visits) == loop
      {
        failure, currentOffset, chunks, visits := RenderChild(e, nested, i, currentOffset, chunks, visits);
        i := i + 1;
      }
      if failure.Some? {
        out := Err(failure.value);
      } else {
        LoopDone(c, e, nested, currentOffset, processed, chunks, visits);
        out := Ok(chunks);
      }
    }

    /** One pass of the second loop, for `nested[i]`. */
    method RenderChild(e: Option<nat>, nested: seq<nat>, i: nat, currentOffset: nat, chunks: seq<string>, ghost visits: seq<nat>)
      returns (failure: Option<RenderError>, newOffset: nat, newChunks: seq<string>, ghost newVisits: seq<nat>)
      requires ValidCtx(Context()) && ValidRef(Context(), e)
      requires forall x :: x in nested ==> x < |sortedEntities|
      requires i < |nested|
      modifies this
      ensures Pending(Context(), processed) <= Pending(Context(), old(processed))
      ensures failure.None? ==> LoopF(Context(), e, nested, i, currentOffset, old(processed), chunks, visits)
                                == LoopF(Context(), e, nested, i + 1, newOffset, processed, newChunks, newVisits)
      ensures failure.Some? ==> LoopF(Context(), e, nested, i, currentOffset, old(processed), chunks, visits)
                                == LoopState(Err(failure.value), newOffset, processed, newVisits)
      decreases Pending(Context(), processed), 0, 1
    {
      var c := Context();
      var n := nested[i];
      assert n in nested;
      var ne := c.sorted[n];
      var before := AddPreceding(e, n, currentOffset, chunks);
      if n !in processed {
        failure, newOffset, newChunks, newVisits := EnterChild(e, nested, i, currentOffset, chunks, visits, before);
      } else {
        LoopSkip(c, e, nested, i, currentOffset, processed, chunks, visits);
        failure, newOffset, newChunks, newVisits := None, ne.offset + ne.length, before, visits;
        assert LoopF(c, e, nested, i, currentOffset, processed, chunks, visits)
               == LoopF(c, e, nested, i + 1, newOffset, processed, newChunks, newVisits);
      }
    }

    /** The escaped text between the cursor and child `n`, added when the cursor has not reached the child's start. */
    method AddPreceding(e: Option<nat>, n: nat, currentOffset: nat, chunks: seq<string>) returns (before: seq<string>)
      requires ValidCtx(Context()) && ValidRef(Context(), e) && n < |sortedEntities|
      ensures before == Preceding(Context(), e, n, currentOffset, chunks)
    {
      var ne := sortedEntities[n];
      var reEscape := ChunkEscape(Context(), e);
      before := chunks;
      if currentOffset < ne.offset {
        before := before + [Escape(reEscape, Slice(text, currentOffset, ne.offset))];
      }
    }

    /** The child `nested[i]` not yet processed: rendered by a nested `process_entity` call, whose exception ends the loop. */
    method EnterChild(e: Option<nat>, nested: seq<nat>, i: nat, currentOffset: nat, chunks: seq<string>, ghost visits: seq<nat>,
                      before: seq<string>)
      returns (failure: Option<RenderError>, newOffset: nat, newChunks: seq<string>, ghost newVisits: seq<nat>)
      requires ValidCtx(Context()) && ValidRef(Context(), e)
      requires forall x :: x in nested ==> x < |sortedEntities|
      requires i < |nested| && nested[i] < |sortedEntities| && nested[i] !in processed
      requires before == Preceding(Context(), e, nested[i], currentOffset, chunks)
      modifies this
      ensures Pending(Context(), processed) <= Pending(Context(), old(processed))
      ensures failure.None? ==> LoopF(Context(), e, nested, i, currentOffset, old(processed), chunks, visits)
                                == LoopF(Context(), e, nested, i + 1, newOffset, processed, newChunks, newVisits)
      ensures failure.Some? ==> LoopF(Context(), e, nested, i, currentOffset, old(processed), chunks, visits)
                                == LoopState(Err(failure.value), newOffset, processed, newVisits)
      decreases Pending(Context(), processed), 0, 0
    {
      var c := Context();
      var n := nested[i];
      var ne := c.sorted[n];
      PendingMark(c, processed, n);
      ghost var spec := ProcessF(c, Some(n), processed);
      PendingMono(c, processed, spec.processed);
      var sub := ProcessEntity(Some(n));
      assert processed == spec.processed;
      newVisits := visits + spec.visits;
      LoopChild(c, e, nested, i, currentOffset, old(processed), chunks, visits, sub, processed, newVisits);
      if sub.Err? {
        failure, newOffset, newChunks := Some(sub.error), ne.offset, before;
      } else {
        failure, newOffset, newChunks := None, ne.offset + ne.length, before + [sub.value];
      }
    }
  }

  /** `TelegramMessage.get_markdown_v2_text(offset)` on a message with the given text and entities. */
  method GetMarkdownV2Text(text: Option<string>, entities: seq<Entity>, offset: nat) returns (r: Result<Option<string>, RenderError>)
    requires forall i :: 0 <= i < |entities| ==> entities[i].offset >= 0 && entities[i].length >= 0
    ensures r == MarkdownV2Text(text, entities, offset)
  {
    if text.None? {
      return Ok(None);
    }
    var renderer := new MarkdownRenderer(text.value, entities, offset);
    SortedCtxValid(text.value, entities, offset);
    var out := renderer.ProcessEntity(None);
    if out.Err? {
      r := Err(out.error);
    } else {
      r := Ok(Some(out.value));
    }
  }
}
