/**
 * `email_list`: split a string of e-mail addresses at a delimiter, strip each
 * piece and match it against
 *
 *     (?:"?([^"<]+)"?\s)?(?:<?([A-Za-z0-9_\-.]+@[A-Za-z0-9_\-.]+)>?)
 *
 * with `re.match` (anchored at the start only).  `Match` follows the regex
 * engine's backtracking order: the optional name group is tried first, the
 * greedy name run is tried from its longest length down, and each optional
 * character is tried present before absent.
 */
module EmailList {
  import opened Wrappers
  import opened PyStr
  import opened PyValue

  /** What the pattern captures: the optional name and the address. */
  datatype EmailAddress = EmailAddress(name: Option<string>, email: string)

  /**
   * `TypeError` for a non-string argument (carrying its type name),
   * `ValueError` from `split` with an empty delimiter, and
   * `EInvalidEmailAddress` carrying the stripped piece that did not match.
   */
  datatype EmailError = TypeError(typeName: string) | ValueError | EInvalidEmailAddress(address: string)

  /** `[A-Za-z0-9_\-.]` */
  predicate IsAddressChar(c: char) {
    ('A' <= c <= 'Z') || ('a' <= c <= 'z') || ('0' <= c <= '9') || c == '_' || c == '-' || c == '.'
  }

  /** `[^"<]` */
  predicate IsNameChar(c: char) {
    c != '"' && c != '<'
  }

  /** `[A-Za-z0-9_\-.]+@[A-Za-z0-9_\-.]+` matches all of `a`. */
  predicate ValidAddress(a: string) {
    exists i :: 0 < i < |a| - 1 && a[i] == '@' && forall j :: 0 <= j < |a| && j != i ==> IsAddressChar(a[j])
  }

  /** The longest run of address characters starting at `p`. */
  function AddressRun(s: string, p: nat): (k: nat)
    requires p <= |s|
    ensures p + k <= |s|
    ensures forall j :: p <= j < p + k ==> IsAddressChar(s[j])
    ensures p + k == |s| || !IsAddressChar(s[p + k])
    decreases |s| - p
  {
    if p < |s| && IsAddressChar(s[p]) then 1 + AddressRun(s, p + 1) else 0
  }

  /** The longest run of name characters starting at `p`. */
  function NameRun(s: string, p: nat): (k: nat)
    requires p <= |s|
    ensures p + k <= |s|
    ensures forall j :: p <= j < p + k ==> IsNameChar(s[j])
    ensures p + k == |s| || !IsNameChar(s[p + k])
    decreases |s| - p
  {
    if p < |s| && IsNameChar(s[p]) then 1 + NameRun(s, p + 1) else 0
  }

  /**
   * `[A-Za-z0-9_\-.]+@[A-Za-z0-9_\-.]+` at `p`.  Both runs are greedy; giving
   * back characters of the first run cannot help, because the character
   * that would then have to be `@` is an address character.
   */
  function AddressFrom(s: string, p: nat): (r: Option<string>)
    requires p <= |s|
    ensures r.Some? ==> ValidAddress(r.value) && p + |r.value| <= |s| && s[p..p + |r.value|] == r.value
  {
    var l := AddressRun(s, p);
    var at := p + l;
    if l == 0 || at == |s| || s[at] != '@' then None
    else
      var d := AddressRun(s, at + 1);
      if d == 0 then None
      else
        var a := s[p..at + 1 + d];
        assert a[l] == '@' && forall j :: 0 <= j < |a| && j != l ==> IsAddressChar(a[j]);
        Some(a)
  }

  /** `<?` followed by the address: `<` present is tried first. */
  predicate AddressForm(s: string, p: nat, a: string) {
    && ValidAddress(a)
    && ((p + |a| <= |s| && s[p..p + |a|] == a)
        || (p < |s| && s[p] == '<' && p + 1 + |a| <= |s| && s[p + 1..p + 1 + |a|] == a))
  }

  /** `(?:<?(address)>?)` at `p`; the trailing `>?` always matches. */
  function AddressAt(s: string, p: nat): (r: Option<string>)
    requires p <= |s|
    ensures r.Some? ==> AddressForm(s, p, r.value)
  {
    if p < |s| && s[p] == '<' then
      match AddressFrom(s, p + 1)
      case Some(a) => Some(a)
      case None => AddressFrom(s, p)
    else AddressFrom(s, p)
  }

  /**
   * The name group matches `s[..e]` with opening quote `q` and closing quote
   * `t` (each 0 or 1 characters) around the name `n`, then one whitespace
   * character.
   */
  predicate NamedAt(s: string, n: string, q: nat, t: nat, e: nat) {
    && e == q + |n| + t + 1 && e <= |s|
    && (q == 1 ==> s[0] == '"')
    && s[q..q + |n|] == n
    && (t == 1 ==> s[q + |n|] == '"')
    && IsSpace(s[q + |n| + t])
  }

  /** `"?([^"<]+)"?\s` matches `s[..e]` capturing `n`. */
  predicate NameForm(s: string, n: string, e: nat) {
    && |n| > 0
    && (forall k :: 0 <= k < |n| ==> IsNameChar(n[k]))
    && (NamedAt(s, n, 0, 0, e) || NamedAt(s, n, 0, 1, e) || NamedAt(s, n, 1, 0, e) || NamedAt(s, n, 1, 1, e))
  }

  /** After the name `s[q..e]`: `"?` then `\s` then the address at `pos`. */
  function NameThenAddress(s: string, q: nat, e: nat, pos: nat): (r: Option<EmailAddress>)
    requires q < e <= pos <= |s|
    ensures r.Some? ==> r.value.name == Some(s[q..e]) && pos < |s| && IsSpace(s[pos]) && AddressForm(s, pos + 1, r.value.email)
  {
    if pos < |s| && IsSpace(s[pos]) then
      match AddressAt(s, pos + 1)
      case Some(a) => Some(EmailAddress(Some(s[q..e]), a))
      case None => None
    else None
  }

  /**
   * The name run `[^"<]+` from `q`, tried with its end at `e`, `e - 1`, ...,
   * `q + 1`; at each end the closing quote is tried present, then absent.
   */
  function NameEnds(s: string, q: nat, e: nat): (r: Option<EmailAddress>)
    requires q <= e <= |s|
    ensures r.Some? ==> r.value.name.Some? && |r.value.name.value| > 0 && ValidAddress(r.value.email)
    decreases e
  {
    if e == q then None
    else
      var withQuote := if e < |s| && s[e] == '"' then NameThenAddress(s, q, e, e + 1) else None;
      if withQuote.Some? then withQuote else
      var plain := NameThenAddress(s, q, e, e);
      if plain.Some? then plain else NameEnds(s, q, e - 1)
  }

  /** A name run ending at `e`, an optional closing quote and whitespace at `pos` form the name group. */
  lemma NameGroup(s: string, q: nat, e: nat, pos: nat)
    requires q <= 1 && (q == 1 ==> |s| > 0 && s[0] == '"')
    requires q < e <= pos < |s| && IsSpace(s[pos])
    requires pos == e || (pos == e + 1 && s[e] == '"')
    requires forall j :: q <= j < e ==> IsNameChar(s[j])
    ensures NameForm(s, s[q..e], pos + 1)
  {
    var n := s[q..e];
    forall k | 0 <= k < |n| ensures IsNameChar(n[k]) {
      assert n[k] == s[q + k];
    }
    if pos == e {
      assert NamedAt(s, n, q, 0, pos + 1);
    } else {
      assert NamedAt(s, n, q, 1, pos + 1);
    }
  }

  /** The name group followed by an address, as `NameThenAddress` finds it. */
  lemma NameThenAddressForm(s: string, q: nat, e: nat, pos: nat)
    requires q <= 1 && (q == 1 ==> |s| > 0 && s[0] == '"')
    requires q < e <= pos <= |s|
    requires pos == e || (pos == e + 1 && s[e] == '"')
    requires forall j :: q <= j < e ==> IsNameChar(s[j])
    requires NameThenAddress(s, q, e, pos).Some?
    ensures var r := NameThenAddress(s, q, e, pos).value;
            r.name.Some? && NameForm(s, r.name.value, pos + 1) && AddressForm(s, pos + 1, r.email)
  {
    NameGroup(s, q, e, pos);
  }

  /** What `NameEnds` finds is a match of the name group followed by the address. */
  lemma {:induction false} NameEndsSound(s: string, q: nat, e: nat)
    requires q <= 1 && (q == 1 ==> |s| > 0 && s[0] == '"')
    requires q <= e <= |s|
    requires forall j :: q <= j < e ==> IsNameChar(s[j])
    ensures var r := NameEnds(s, q, e);
            r.Some? ==> r.value.name.Some? && exists f :: q < f <= |s| && NameForm(s, r.value.name.value, f) && AddressForm(s, f, r.value.email)
    decreases e
  {
    if e > q {
      if e < |s| && s[e] == '"' && NameThenAddress(s, q, e, e + 1).Some? {
        assert NameEnds(s, q, e) == NameThenAddress(s, q, e, e + 1);
        NameThenAddressForm(s, q, e, e + 1);
      } else if NameThenAddress(s, q, e, e).Some? {
        assert NameEnds(s, q, e) == NameThenAddress(s, q, e, e);
        NameThenAddressForm(s, q, e, e);
      } else {
        assert NameEnds(s, q, e) == NameEnds(s, q, e - 1);
        NameEndsSound(s, q, e - 1);
      }
    }
  }

  /**
   * `name_and_email_regex.match(s)`: the name group with the opening quote
   * present, then absent, then the group skipped.
   */
  function Match(s: string): (r: Option<EmailAddress>)
    ensures r.Some? ==> ValidAddress(r.value.email)
    ensures r.Some? && r.value.name.Some? ==> |r.value.name.value| > 0
  {
    var quoted := if |s| > 0 && s[0] == '"' then NameEnds(s, 1, 1 + NameRun(s, 1)) else None;
    var named := if quoted.Some? then quoted else NameEnds(s, 0, NameRun(s, 0));
    if named.Some? then named
    else
      match AddressAt(s, 0)
      case Some(a) => Some(EmailAddress(None, a))
      case None => None
  }

  /** Whatever `Match` returns is a match of the pattern at the start of `s`, with the groups it reports. */
  lemma MatchSound(s: string)
    ensures var r := Match(s);
            && (r.Some? && r.value.name.None? ==> AddressForm(s, 0, r.value.email))
            && (r.Some? && r.value.name.Some? ==>
                  exists e :: 0 < e <= |s| && NameForm(s, r.value.name.value, e) && AddressForm(s, e, r.value.email))
  {
    if |s| > 0 && s[0] == '"' {
      NameEndsSound(s, 1, 1 + NameRun(s, 1));
    }
    NameEndsSound(s, 0, NameRun(s, 0));
  }

  /** An address written at `p` puts its `@` into `s`. */
  lemma AddressFormHasAt(s: string, p: nat, a: string)
    requires AddressForm(s, p, a)
    ensures exists j :: 0 <= j < |s| && s[j] == '@'
  {
    var i :| 0 < i < |a| - 1 && a[i] == '@' && forall j :: 0 <= j < |a| && j != i ==> IsAddressChar(a[j]);
    if p + |a| <= |s| && s[p..p + |a|] == a {
      assert s[p + i] == s[p..p + |a|][i];
    } else {
      assert s[p + 1 + i] == s[p + 1..p + 1 + |a|][i];
    }
  }

  /** Every match contains an `@` of `s`: a string without one never matches. */
  lemma MatchHasAt(s: string)
    requires Match(s).Some?
    ensures exists j :: 0 <= j < |s| && s[j] == '@'
  {
    MatchSound(s);
    var r := Match(s).value;
    if r.name.None? {
      AddressFormHasAt(s, 0, r.email);
    } else {
      var e :| 0 < e <= |s| && NameForm(s, r.name.value, e) && AddressForm(s, e, r.email);
      AddressFormHasAt(s, e, r.email);
    }
  }

  /** A run of address characters of length `k` from `p` is covered by `AddressRun`. */
  lemma {:induction false} AddressRunCovers(s: string, p: nat, k: nat)
    requires p + k <= |s|
    requires forall j :: p <= j < p + k ==> IsAddressChar(s[j])
    ensures AddressRun(s, p) >= k
    decreases k
  {
    if k > 0 {
      AddressRunCovers(s, p + 1, k - 1);
    }
  }

  /** A valid address written at `p`, whatever follows it, is found by `AddressFrom`. */
  lemma AddressFromFinds(s: string, p: nat, a: string)
    requires ValidAddress(a)
    requires p + |a| <= |s| && s[p..p + |a|] == a
    ensures AddressFrom(s, p).Some?
  {
    var i :| 0 < i < |a| - 1 && a[i] == '@' && forall j :: 0 <= j < |a| && j != i ==> IsAddressChar(a[j]);
    forall j | p <= j < p + |a| ensures s[j] == a[j - p] {
      assert s[p..p + |a|][j - p] == s[j];
    }
    AddressRunCovers(s, p, i);
    AddressRunCovers(s, p + i + 1, 1);
    assert AddressRun(s, p) == i;
  }

  /** An address written `<?address` at `p` is found by `AddressAt`. */
  lemma AddressAtFinds(s: string, p: nat, a: string)
    requires AddressForm(s, p, a)
    ensures AddressAt(s, p).Some?
  {
    var i :| 0 < i < |a| - 1 && a[i] == '@' && forall j :: 0 <= j < |a| && j != i ==> IsAddressChar(a[j]);
    if p + |a| <= |s| && s[p..p + |a|] == a {
      assert s[p] == s[p..p + |a|][0];
      AddressFromFinds(s, p, a);
    } else {
      AddressFromFinds(s, p + 1, a);
    }
  }

  /** `NameEnds` from `e` down succeeds when it succeeds from a shorter end `f`: ends are only added. */
  lemma {:induction false} NameEndsMono(s: string, q: nat, e: nat, f: nat)
    requires q <= f <= e <= |s|
    requires NameEnds(s, q, f).Some?
    ensures NameEnds(s, q, e).Some?
    decreases e
  {
    if e > f {
      NameEndsMono(s, q, e - 1, f);
      NameEndsFallsBack(s, q, e);
    }
  }

  /** The end `e` is tried first: with the closing quote, then without. */
  lemma NameEndsTriesEnd(s: string, q: nat, e: nat, pos: nat)
    requires q < e <= pos < |s| && IsSpace(s[pos])
    requires pos == e || (pos == e + 1 && s[e] == '"')
    requires AddressAt(s, pos + 1).Some?
    ensures NameEnds(s, q, e).Some?
  {
    NameThenAddressFinds(s, q, e, pos);
  }

  /** When the end `e` fails, the shorter ends are tried. */
  lemma NameEndsFallsBack(s: string, q: nat, e: nat)
    requires q < e <= |s|
    requires NameEnds(s, q, e - 1).Some?
    ensures NameEnds(s, q, e).Some?
  {
  }

  /** Whitespace at `pos` followed by an address completes the name group. */
  lemma NameThenAddressFinds(s: string, q: nat, e: nat, pos: nat)
    requires q < e <= pos < |s| && IsSpace(s[pos])
    requires AddressAt(s, pos + 1).Some?
    ensures NameThenAddress(s, q, e, pos).Some?
  {
  }

  /**
   * A name end `f`, `t` closing quotes, whitespace and an address are found
   * by `NameEnds` from any `e >= f`.
   */
  lemma NameEndFinds(s: string, q: nat, f: nat, pos: nat, e: nat)
    requires q < f <= pos < |s| && IsSpace(s[pos])
    requires pos == f || (pos == f + 1 && s[f] == '"')
    requires AddressAt(s, pos + 1).Some?
    requires f <= e <= |s|
    ensures NameEnds(s, q, e).Some?
  {
    NameEndsTriesEnd(s, q, f, pos);
    NameEndsMono(s, q, e, f);
  }

  /** A name group with opening quote `q` and closing quote `t`, followed by an address, is found by `NameEnds`. */
  lemma NamedAtFinds(s: string, n: string, q: nat, t: nat, e: nat)
    requires q <= 1 && t <= 1 && NamedAt(s, n, q, t, e)
    requires |n| > 0 && forall k :: 0 <= k < |n| ==> IsNameChar(n[k])
    requires AddressAt(s, e).Some?
    ensures NameEnds(s, q, q + NameRun(s, q)).Some?
  {
    NamedAtChars(s, n, q, q + |n|);
    NameRunFindsEnd(s, q, q + |n|, q + |n| + t);
  }

  /** The captured name `n = s[q..f]` puts name characters on `[q, f)`. */
  lemma NamedAtChars(s: string, n: string, q: nat, f: nat)
    requires q <= f <= |s| && s[q..f] == n
    requires forall k :: 0 <= k < |n| ==> IsNameChar(n[k])
    ensures forall j :: q <= j < f ==> IsNameChar(s[j])
  {
    forall j | q <= j < f ensures IsNameChar(s[j]) {
      assert s[j] == n[j - q];
    }
  }

  /** Name characters on `[q, f)`, then `"?` and whitespace at `pos` and an address: `NameEnds` finds it from the whole run. */
  lemma NameRunFindsEnd(s: string, q: nat, f: nat, pos: nat)
    requires q < f <= pos < |s| && IsSpace(s[pos])
    requires forall j :: q <= j < f ==> IsNameChar(s[j])
    requires pos == f || (pos == f + 1 && s[f] == '"')
    requires AddressAt(s, pos + 1).Some?
    ensures NameEnds(s, q, q + NameRun(s, q)).Some?
  {
    NameRunCovers(s, q, f - q);
    NameEndFinds(s, q, f, pos, q + NameRun(s, q));
  }

  /** A name group followed by an address makes `Match` succeed. */
  lemma NameFormFinds(s: string, n: string, e: nat, a: string)
    requires NameForm(s, n, e) && AddressForm(s, e, a)
    ensures Match(s).Some?
  {
    AddressAtFinds(s, e, a);
    if NamedAt(s, n, 1, 0, e) {
      NamedAtFinds(s, n, 1, 0, e);
      MatchTriesQuoted(s);
    } else if NamedAt(s, n, 1, 1, e) {
      NamedAtFinds(s, n, 1, 1, e);
      MatchTriesQuoted(s);
    } else if NamedAt(s, n, 0, 0, e) {
      NamedAtFinds(s, n, 0, 0, e);
      MatchTriesUnquoted(s);
    } else {
      NamedAtFinds(s, n, 0, 1, e);
      MatchTriesUnquoted(s);
    }
  }

  /** A name group found after the opening quote is what `Match` returns. */
  lemma MatchTriesQuoted(s: string)
    requires |s| > 0 && s[0] == '"' && NameEnds(s, 1, 1 + NameRun(s, 1)).Some?
    ensures Match(s).Some?
  {
  }

  /** A name group found at the start is what `Match` returns when the quoted try fails. */
  lemma MatchTriesUnquoted(s: string)
    requires NameEnds(s, 0, NameRun(s, 0)).Some?
    ensures Match(s).Some?
  {
  }

  /**
   * `Match` succeeds exactly when the pattern can match the start of `s`:
   * as an address alone, or as a name group followed by an address.
   */
  lemma MatchSucceedsIff(s: string)
    ensures Match(s).Some? <==>
              || (exists a :: AddressForm(s, 0, a))
              || (exists n, e, a :: NameForm(s, n, e) && AddressForm(s, e, a))
  {
    MatchSound(s);
    if exists a :: AddressForm(s, 0, a) {
      var a :| AddressForm(s, 0, a);
      AddressAtFinds(s, 0, a);
    }
    if exists n, e, a :: NameForm(s, n, e) && AddressForm(s, e, a) {
      var n, e, a :| NameForm(s, n, e) && AddressForm(s, e, a);
      NameFormFinds(s, n, e, a);
    }
  }

  /**
   * The `@` at `j` cannot belong to a match: a character that is not an
   * address character lies before it, past the start, with no whitespace
   * from just before that character up to the `@`.
   */
  predicate AtUnreachable(s: string, j: nat)
    requires j <= |s|
  {
    exists k :: 1 <= k < j && !IsAddressChar(s[k]) && forall m :: k - 1 <= m < j ==> !IsSpace(s[m])
  }

  /** An address at `st` whose `@` is unreachable has two characters before it, neither whitespace. */
  lemma AddressTextUnreachable(s: string, st: nat, a: string)
    requires ValidAddress(a) && st + |a| <= |s| && s[st..st + |a|] == a
    requires forall j :: 0 <= j < |s| && s[j] == '@' ==> AtUnreachable(s, j)
    ensures st >= 2 && !IsSpace(s[st - 2]) && !IsSpace(s[st - 1])
  {
    var i :| 0 < i < |a| - 1 && a[i] == '@' && forall j :: 0 <= j < |a| && j != i ==> IsAddressChar(a[j]);
    forall m | st <= m < st + |a| ensures s[m] == a[m - st] {
      assert s[st..st + |a|][m - st] == s[m];
    }
    var j := st + i;
    assert s[j] == '@';
    var k :| 1 <= k < j && !IsAddressChar(s[k]) && forall m :: k - 1 <= m < j ==> !IsSpace(s[m]);
    assert k < st;
  }

  /** An address written at `p` whose `@` is unreachable is neither at the start nor after whitespace. */
  lemma AddressFormUnreachable(s: string, p: nat, a: string)
    requires AddressForm(s, p, a)
    requires forall j :: 0 <= j < |s| && s[j] == '@' ==> AtUnreachable(s, j)
    ensures 0 < p <= |s| && !IsSpace(s[p - 1])
  {
    if p + |a| <= |s| && s[p..p + |a|] == a {
      AddressTextUnreachable(s, p, a);
    } else {
      AddressTextUnreachable(s, p + 1, a);
    }
  }

  /** A string in which every `@` is unreachable does not match. */
  lemma NoReachableAddress(s: string)
    requires forall j :: 0 <= j < |s| && s[j] == '@' ==> AtUnreachable(s, j)
    ensures Match(s).None?
  {
    MatchSound(s);
    var r := Match(s);
    if r.Some? && r.value.name.None? {
      AddressFormUnreachable(s, 0, r.value.email);
    }
    if r.Some? && r.value.name.Some? {
      var e :| 0 < e <= |s| && NameForm(s, r.value.name.value, e) && AddressForm(s, e, r.value.email);
      var n := r.value.name.value;
      assert IsSpace(s[e - 1]);
      AddressFormUnreachable(s, e, r.value.email);
    }
  }

  /**
   * `John Doe <john#doe@example.com>` does not match, since `#` cuts the
   * local part off from the name; as the whole argument of `email_list` it
   * raises `EInvalidEmailAddress` carrying itself.
   */
  lemma InvalidLocalPart(s: string)
    requires s == "John Doe <john#doe@example.com>"
    ensures Match(s).None?
    ensures EmailListOf(Str(s), ";") == Err(EInvalidEmailAddress(s))
  {
    InvalidLocalPartUnreachable(s);
    NoReachableAddress(s);
    UnmatchedPiece(s);
  }

  /**
   * The only `@` of `John Doe <john#doe@example.com>` is unreachable; the
   * string has no `;` and no surrounding whitespace.
   */
  lemma InvalidLocalPartUnreachable(s: string)
    requires s == "John Doe <john#doe@example.com>"
    ensures forall j :: 0 <= j < |s| && s[j] == '@' ==> AtUnreachable(s, j)
    ensures forall j :: 0 <= j < |s| ==> s[j] != ';'
    ensures |s| > 0 && !IsSpace(s[0]) && !IsSpace(s[|s| - 1])
  {
    forall j | 0 <= j < |s| && s[j] == '@' ensures AtUnreachable(s, j) {
      assert j == 18;
      assert !IsAddressChar(s[14]) && forall m :: 13 <= m < 18 ==> !IsSpace(s[m]);
    }
  }

  /** A single piece without `;` or surrounding whitespace that does not match is reported as itself. */
  lemma UnmatchedPiece(s: string)
    requires forall j :: 0 <= j < |s| ==> s[j] != ';'
    requires |s| > 0 && !IsSpace(s[0]) && !IsSpace(s[|s| - 1])
    requires Match(s).None?
    ensures EmailListOf(Str(s), ";") == Err(EInvalidEmailAddress(s))
  {
    NoCharNoOccurrence(s, ';');
    SplitWithoutSeparator(s, ";");
    StripUnchanged(s);
    assert MapAll([s], ParsePiece) == Err(0);
  }

  /** A run of name characters of length `k` from `p` is covered by `NameRun`. */
  lemma {:induction false} NameRunCovers(s: string, p: nat, k: nat)
    requires p + k <= |s|
    requires forall j :: p <= j < p + k ==> IsNameChar(s[j])
    ensures NameRun(s, p) >= k
    decreases k
  {
    if k > 0 {
      NameRunCovers(s, p + 1, k - 1);
    }
  }

  /** The address as it may be written: each of `<` and `>` present or absent. */
  function AddressText(a: string, open: bool, close: bool): string {
    (if open then "<" else "") + a + (if close then ">" else "")
  }

  /** Neither address characters nor angle brackets are whitespace or quotes. */
  predicate Plain(c: char) {
    !IsSpace(c) && c != '"'
  }

  lemma AddressTextPlain(a: string, open: bool, close: bool)
    requires ValidAddress(a)
    ensures forall j :: 0 <= j < |AddressText(a, open, close)| ==> Plain(AddressText(a, open, close)[j])
  {
    var i :| 0 < i < |a| - 1 && a[i] == '@' && forall j :: 0 <= j < |a| && j != i ==> IsAddressChar(a[j]);
    var t := AddressText(a, open, close);
    var o := if open then 1 else 0;
    forall j | 0 <= j < |t| ensures Plain(t[j]) {
      if o <= j < o + |a| {
        assert t[j] == a[j - o];
      }
    }
  }

  /** `AddressRun` is the only run length that ends at a non-address character. */
  lemma AddressRunIs(s: string, p: nat, k: nat)
    requires p + k <= |s|
    requires forall j :: p <= j < p + k ==> IsAddressChar(s[j])
    requires p + k == |s| || !IsAddressChar(s[p + k])
    ensures AddressRun(s, p) == k
  {
  }

  /** A valid address followed by the end or a non-address character is what `AddressFrom` reads. */
  lemma AddressFromReads(s: string, p: nat, a: string)
    requires ValidAddress(a)
    requires p + |a| <= |s| && s[p..p + |a|] == a
    requires p + |a| == |s| || !IsAddressChar(s[p + |a|])
    ensures AddressFrom(s, p) == Some(a)
  {
    var i :| 0 < i < |a| - 1 && a[i] == '@' && forall j :: 0 <= j < |a| && j != i ==> IsAddressChar(a[j]);
    forall j | p <= j < p + |a| ensures s[j] == a[j - p] {
      assert s[p..p + |a|][j - p] == s[j];
    }
    AddressRunIs(s, p, i);
    AddressRunIs(s, p + i + 1, |a| - i - 1);
  }

  /** Where the address and the brackets sit when `s` ends with `AddressText`. */
  lemma AddressTextLayout(s: string, p: nat, a: string, open: bool, close: bool)
    requires p <= |s| && s[p..] == AddressText(a, open, close)
    ensures var o := if open then 1 else 0;
            && p + o + |a| <= |s|
            && s[p + o..p + o + |a|] == a
            && (open ==> s[p] == '<')
            && (p + o + |a| == |s| || s[p + o + |a|] == '>')
  {
    var x := if open then "<" else "";
    var z := if close then ">" else "";
    var t := x + a + z;
    assert AddressText(a, open, close) == t;
    Parts(x, a, z);
    forall j | 0 <= j < |a| ensures s[p + |x| + j] == a[j] {
      assert s[p + |x| + j] == s[p..][|x| + j] == t[|x| + j];
    }
    assert s[p + |x|..p + |x| + |a|] == a;
    if open {
      assert s[p] == t[0];
    }
    if close {
      assert s[p + |x| + |a|] == t[|x| + |a|];
    }
  }

  /** The address written at the end of `s`, with or without angle brackets, is what `AddressAt` reads. */
  lemma AddressAtReads(s: string, p: nat, a: string, open: bool, close: bool)
    requires ValidAddress(a)
    requires p <= |s| && s[p..] == AddressText(a, open, close)
    ensures AddressAt(s, p) == Some(a)
  {
    var i :| 0 < i < |a| - 1 && a[i] == '@' && forall j :: 0 <= j < |a| && j != i ==> IsAddressChar(a[j]);
    AddressTextLayout(s, p, a, open, close);
    if open {
      AddressFromReads(s, p + 1, a);
    } else {
      assert s[p] == s[p..p + |a|][0];
      AddressFromReads(s, p, a);
    }
  }

  /** Ends followed by neither whitespace nor a quote are passed over. */
  lemma {:induction false} NameEndsSkip(s: string, q: nat, e: nat, e0: nat)
    requires q <= e0 <= e <= |s|
    requires forall j :: e0 < j < |s| && j <= e ==> Plain(s[j])
    ensures NameEnds(s, q, e) == NameEnds(s, q, e0)
    decreases e
  {
    if e > e0 {
      assert e == |s| || Plain(s[e]);
      NameEndsSkip(s, q, e - 1, e0);
    }
  }

  /** An address alone, with or without either angle bracket, matches with no name. */
  lemma BareAddress(a: string, open: bool, close: bool)
    requires ValidAddress(a)
    ensures Match(AddressText(a, open, close)) == Some(EmailAddress(None, a))
  {
    var s := AddressText(a, open, close);
    AddressTextPlain(a, open, close);
    assert s[0] != '"';
    NameEndsSkip(s, 0, NameRun(s, 0), 0);
    assert s[0..] == s;
    AddressAtReads(s, 0, a, open, close);
  }

  /** Unquoted name group: a name run to `e`, whitespace, then an address, with nothing but plain characters after it. */
  lemma NamedMatch(s: string, e: nat, a: string)
    requires 0 < e < |s| && s[0] != '"' && IsSpace(s[e])
    requires forall j :: 0 <= j < e ==> IsNameChar(s[j])
    requires forall j :: e < j < |s| ==> Plain(s[j])
    requires AddressAt(s, e + 1) == Some(a)
    ensures Match(s) == Some(EmailAddress(Some(s[..e]), a))
  {
    var r := NameRun(s, 0);
    NameRunCovers(s, 0, e);
    NameEndsSkip(s, 0, r, e);
    assert NameEnds(s, 0, e) == NameThenAddress(s, 0, e, e);
  }

  /** Quoted name group: `"`, a name run to `e`, `"`, whitespace, then an address. */
  lemma QuotedMatch(s: string, e: nat, a: string)
    requires 1 < e && e + 1 < |s| && s[0] == '"' && s[e] == '"' && IsSpace(s[e + 1])
    requires forall j :: 1 <= j < e ==> IsNameChar(s[j])
    requires AddressAt(s, e + 2) == Some(a)
    ensures Match(s) == Some(EmailAddress(Some(s[1..e]), a))
  {
    NameRunCovers(s, 1, e - 1);
    assert NameRun(s, 1) == e - 1;
    assert NameEnds(s, 1, e) == NameThenAddress(s, 1, e, e + 1);
  }

  /** Character classes of the first and last parts of `x + y + z`. */
  lemma PartChars(x: string, y: string, z: string)
    ensures (forall k :: 0 <= k < |x| ==> IsNameChar(x[k])) ==> forall j :: 0 <= j < |x| ==> IsNameChar((x + y + z)[j])
    ensures (forall k :: 0 <= k < |z| ==> Plain(z[k])) ==> forall j :: |x| + |y| <= j < |x + y + z| ==> Plain((x + y + z)[j])
  {
    var s := x + y + z;
    forall j | |x| + |y| <= j < |s| ensures s[j] == z[j - |x| - |y|] { }
  }

  /** `name address`, `name <address>` and `name <address` (no closing `>`) capture the name. */
  lemma NamedAddress(n: string, a: string, open: bool, close: bool)
    requires |n| > 0 && forall k :: 0 <= k < |n| ==> IsNameChar(n[k])
    requires ValidAddress(a)
    ensures Match(n + " " + AddressText(a, open, close)) == Some(EmailAddress(Some(n), a))
  {
    var t := AddressText(a, open, close);
    var s := n + " " + t;
    AddressTextPlain(a, open, close);
    PartChars(n, " ", t);
    Parts(n, " ", t);
    assert s[0] == n[0] && s[|n|] == ' ';
    AddressAtReads(s, |n| + 1, a, open, close);
    NamedMatch(s, |n|, a);
  }

  /** `name <address`, with the closing `>` missing, still captures the name and the address. */
  lemma MissingCloseAngle(n: string, a: string)
    requires |n| > 0 && forall k :: 0 <= k < |n| ==> IsNameChar(n[k])
    requires ValidAddress(a)
    ensures Match(n + " <" + a) == Some(EmailAddress(Some(n), a))
  {
    NamedAddress(n, a, true, false);
    assert n + " " + AddressText(a, true, false) == n + " <" + a;
  }

  /** `"name" address` and `"name" <address>` capture the name without its quotes. */
  lemma QuotedName(n: string, a: string, open: bool, close: bool)
    requires |n| > 0 && forall k :: 0 <= k < |n| ==> IsNameChar(n[k])
    requires ValidAddress(a)
    ensures Match("\"" + n + "\" " + AddressText(a, open, close)) == Some(EmailAddress(Some(n), a))
  {
    var t := AddressText(a, open, close);
    var s := "\"" + n + "\" " + t;
    QuotedLayout(n, t);
    AddressAtReads(s, |n| + 3, a, open, close);
    QuotedMatch(s, 1 + |n|, a);
  }

  /** Where the quotes, the name, the space and the rest sit in `"n" t`. */
  lemma QuotedLayout(n: string, t: string)
    requires forall k :: 0 <= k < |n| ==> IsNameChar(n[k])
    ensures var s := "\"" + n + "\" " + t;
            var e := 1 + |n|;
            && |s| == e + 2 + |t|
            && s[0] == '"' && s[e] == '"' && s[e + 1] == ' '
            && s[1..e] == n && s[e + 2..] == t
            && forall j :: 1 <= j < e ==> IsNameChar(s[j])
  {
    var s := "\"" + n + "\" " + t;
    var e := 1 + |n|;
    Parts("\"", n, "\" " + t);
    assert "\"" + n + ("\" " + t) == s;
    forall j | 1 <= j < e ensures IsNameChar(s[j]) {
      assert s[j] == n[j - 1];
    }
    Parts("\"" + n, "\" ", t);
  }

  /**
   * A list comprehension that raises: `[f(x) for x in xs]` where `f` can
   * fail; the first failing position is reported.
   */
  function MapAll<A, X>(xs: seq<A>, f: A -> Option<X>): (r: Result<seq<X>, nat>)
    ensures r.Ok? <==> forall i :: 0 <= i < |xs| ==> f(xs[i]).Some?
    ensures r.Ok? ==> |r.value| == |xs| && forall i :: 0 <= i < |xs| ==> f(xs[i]) == Some(r.value[i])
    ensures r.Err? ==> r.error < |xs| && f(xs[r.error]).None? && forall j :: 0 <= j < r.error ==> f(xs[j]).Some?
  {
    if |xs| == 0 then Ok([])
    else
      match f(xs[0])
      case None => Err(0)
      case Some(first) =>
        var rest := MapAll(xs[1..], f);
        assert forall i :: 1 <= i < |xs| ==> xs[1..][i - 1] == xs[i];
        match rest
        case Err(i) => Err(i + 1)
        case Ok(tail) => Ok([first] + tail)
  }

  /** One piece: stripped, then matched. */
  function ParsePiece(piece: string): Option<EmailAddress> {
    Match(Strip(piece))
  }

  /** `email_list(email_string, delimiter)`. */
  function EmailListOf(emailString: Value, delimiter: string): (r: Result<seq<EmailAddress>, EmailError>)
    ensures !emailString.Str? ==> r == Err(TypeError(TypeName(emailString)))
    ensures emailString.Str? && |delimiter| == 0 ==> r == Err(ValueError)
    ensures r.Err? && !r.error.TypeError? && !r.error.ValueError? ==> r.error.EInvalidEmailAddress?
  {
    if !emailString.Str? then Err(TypeError(TypeName(emailString)))
    else if |delimiter| == 0 then Err(ValueError)
    else
      var pieces := Split(emailString.s, delimiter);
      match MapAll(pieces, ParsePiece)
      case Ok(addresses) => Ok(addresses)
      case Err(i) => Err(EInvalidEmailAddress(Strip(pieces[i])))
  }

  /** A successful call gives one address per delimited piece, in order, each the match of the stripped piece. */
  lemma EmailListParsesEachPiece(emailString: Value, delimiter: string)
    requires EmailListOf(emailString, delimiter).Ok?
    ensures emailString.Str? && |delimiter| > 0
    ensures var pieces := Split(emailString.s, delimiter);
            var r := EmailListOf(emailString, delimiter).value;
            && |r| == |pieces|
            && forall i :: 0 <= i < |pieces| ==> Match(Strip(pieces[i])) == Some(r[i])
  {
    var pieces := Split(emailString.s, delimiter);
    var m := MapAll(pieces, ParsePiece);
    assert m.Ok?;
    forall i | 0 <= i < |pieces| ensures Match(Strip(pieces[i])) == Some(m.value[i]) {
      assert ParsePiece(pieces[i]) == Some(m.value[i]);
    }
  }

  /** `pieces[i]` is the first piece that does not match, and `address` is it stripped. */
  predicate FirstBadPiece(pieces: seq<string>, i: nat, address: string) {
    && i < |pieces|
    && address == Strip(pieces[i])
    && ParsePiece(pieces[i]).None?
    && forall j :: 0 <= j < i ==> ParsePiece(pieces[j]).Some?
  }

  /**
   * `EInvalidEmailAddress` carries the first stripped piece that does not
   * match; every piece before it matches.
   */
  lemma EmailListReportsFirstBadPiece(emailString: Value, delimiter: string)
    requires EmailListOf(emailString, delimiter).Err? && EmailListOf(emailString, delimiter).error.EInvalidEmailAddress?
    ensures emailString.Str? && |delimiter| > 0
    ensures exists i :: FirstBadPiece(Split(emailString.s, delimiter), i, EmailListOf(emailString, delimiter).error.address)
  {
    var pieces := Split(emailString.s, delimiter);
    var m := MapAll(pieces, ParsePiece);
    assert m.Err?;
    var i := m.error;
    assert FirstBadPiece(pieces, i, EmailListOf(emailString, delimiter).error.address);
  }

  /** A single piece with no delimiter in it parses to its match. */
  lemma SinglePiece(s: string)
    requires forall j :: 0 <= j < |s| ==> s[j] != ';'
    requires ParsePiece(s).Some?
    ensures EmailListOf(Str(s), ";") == Ok([ParsePiece(s).value])
  {
    NoCharNoOccurrence(s, ';');
    SplitWithoutSeparator(s, ";");
    var m := MapAll([s], ParsePiece);
    assert m.Ok? && m.value == [ParsePiece(s).value];
  }
}
