/** The query string: the client's URL handler prints it, the server's tokenizer reads it. */
module QueryString {

  // ----- the client ------------------------------------------------------------------------------

  /** A parameter list in the order its keys were first set. */
  type Params = seq<(string, string)>

  ghost predicate Distinct(params: Params) {
    forall i, j :: 0 <= i < j < |params| ==> params[i].0 != params[j].0
  }

  /** The map that a parameter list stands for; a later value of a key overrides an earlier one. */
  function Contents(params: Params): map<string, string> {
    if params == [] then map[]
    else Contents(params[..|params| - 1])[params[|params| - 1].0 := params[|params| - 1].1]
  }

  function Pair(p: (string, string)): string {
    p.0 + "=" + p.1 + "&"
  }

  function Printed(params: Params): string {
    if params == [] then "" else Printed(params[..|params| - 1]) + Pair(params[|params| - 1])
  }

  class URLHandler {
    var url: string
    var params: Params

    constructor ()
      ensures url == "" && params == []
    {
      url, params := "", [];
    }

    method SetURL(url: string)
      modifies `url
      ensures this.url == url
    {
      this.url := url;
    }

    /** Sets one parameter. */
    method Put(key: string, value: string)
      requires Distinct(params)
      modifies `params
      ensures Distinct(params) && Contents(params) == Contents(old(params))[key := value]
    {
      for i := 0 to |params|
        invariant params == old(params) && forall j :: 0 <= j < i ==> params[j].0 != key
      {
        if params[i].0 == key {
          ContentsAfterUpdate(params, i, value);
          params := params[i := (params[i].0, value)];
          return;
        }
      }
      ContentsAfterAppend(params, key, value);
      params := params + [(key, value)];
    }

    method UpdateParams(news: Params)
      requires Distinct(params)
      modifies `params
      ensures Distinct(params) && Contents(params) == Contents(old(params)) + Contents(news)
    {
      for i := 0 to |news|
        invariant Distinct(params) && Contents(params) == Contents(old(params)) + Contents(news[..i])
      {
        Put(news[i].0, news[i].1);
        assert news[..i + 1][..i] == news[..i];
      }
      assert news[..|news|] == news;
    }

    method GetURL() returns (r: string)
      ensures r == PrintedURL(url, params)
    {
      r := url;
      if '?' !in r {
        r := r + "?";
      } else {
        r := r + "&";
      }
      ghost var start := r;
      for i := 0 to |params|
        invariant r == start + Printed(params[..i])
      {
        r := r + params[i].0 + "=" + params[i].1 + "&";
        assert params[..i + 1][..i] == params[..i];
        Regroup(start, Printed(params[..i]), params[i]);
      }
      assert params[..|params|] == params;
    }
  }

  lemma Regroup(a: string, b: string, p: (string, string))
    ensures a + b + p.0 + "=" + p.1 + "&" == a + (b + Pair(p))
  {
  }

  lemma ContentsAfterAppend(params: Params, key: string, value: string)
    requires Distinct(params) && forall j :: 0 <= j < |params| ==> params[j].0 != key
    ensures Distinct(params + [(key, value)])
    ensures Contents(params + [(key, value)]) == Contents(params)[key := value]
  {
    assert (params + [(key, value)])[..|params|] == params;
  }

  lemma {:induction false} ContentsAfterUpdate(params: Params, i: nat, value: string)
    requires Distinct(params) && i < |params|
    ensures Distinct(params[i := (params[i].0, value)])
    ensures Contents(params[i := (params[i].0, value)]) == Contents(params)[params[i].0 := value]
    decreases |params|
  {
    var news, init := params[i := (params[i].0, value)], params[..|params| - 1];
    if i < |params| - 1 {
      assert news[..|params| - 1] == init[i := (params[i].0, value)];
      ContentsAfterUpdate(init, i, value);
      assert params[i].0 != params[|params| - 1].0;
    } else {
      assert news[..|params| - 1] == init;
    }
  }

  // ----- on the way ------------------------------------------------------------------------------

  /** What stands before the first `c`, or all if there is none. */
  function Before(c: char, s: string): (r: string)
    ensures c !in r && |r| <= |s|
  {
    if s == "" || s[0] == c then "" else [s[0]] + Before(c, s[1..])
  }

  lemma {:induction false} BeforeJoin(c: char, s: string, t: string)
    ensures Before(c, s + t) == if c in s then Before(c, s) else s + Before(c, t)
  {
    if s == "" {
      assert s + t == t;
    } else {
      assert (s + t)[1..] == s[1..] + t;
      BeforeJoin(c, s[1..], t);
      assert [s[0]] + (s[1..] + Before(c, t)) == s + Before(c, t);
    }
  }

  function AfterQuestionMark(s: string): string {
    if s == "" then "" else if s[0] == '?' then s[1..] else AfterQuestionMark(s[1..])
  }

  /** The query of a URL: what follows the first question mark, without the fragment that a number sign starts. */
  function Query(url: string): string {
    AfterQuestionMark(Before('#', url))
  }

  /** What the server reads of it: a C string ends at the first NUL. */
  function Received(url: string): string {
    Before('\0', Query(url))
  }

  // ----- the server ------------------------------------------------------------------------------

  /** How many delimiters come first. */
  function Delimiters(s: string): (n: nat)
    ensures n <= |s|
  {
    if s == "" || s[0] != '&' then 0 else 1 + Delimiters(s[1..])
  }

  /** How many characters come before the next delimiter. */
  function TokenLength(s: string): (n: nat)
    ensures n <= |s|
  {
    if s == "" || s[0] == '&' then 0 else 1 + TokenLength(s[1..])
  }

  function Spaced(s: string): (r: string)
    ensures |r| == |s|
  {
    seq(|s|, i requires 0 <= i < |s| => if s[i] == '+' then ' ' else s[i])
  }

  /** Where the first equal sign stands, or the length if there is none. */
  function EqualSign(s: string): (n: nat)
    ensures n <= |s|
  {
    if s == "" || s[0] == '=' then 0 else 1 + EqualSign(s[1..])
  }

  /** The entries of a query string, for a given way to undo escapes. */
  function Args(unescape: string -> string, s: string, entries: map<string, string>): map<string, string>
    decreases |s|
  {
    var rest := s[Delimiters(s)..];
    if rest == "" then entries else
      StartsWithToken(s);
      var n := TokenLength(rest);
      var (key, value) := Entry(unescape, rest[..n]);
      Args(unescape, rest[n..], entries[key := value])
  }

  lemma {:induction false} StartsWithToken(s: string)
    requires s[Delimiters(s)..] != ""
    ensures TokenLength(s[Delimiters(s)..]) > 0
  {
    if s[0] == '&' {
      assert s[1..][Delimiters(s[1..])..] == s[Delimiters(s)..];
      StartsWithToken(s[1..]);
    } else {
      assert s[0..] == s;
    }
  }

  /** Key and value of a token: plus signs are made spaces, it is cut at the first equal sign, and escapes are undone
      in both parts; without an equal sign it is all key. */
  function Entry(unescape: string -> string, token: string): (string, string) {
    var e := EqualSign(token);
    if e < |token| then (unescape(Spaced(token)[..e]), unescape(Spaced(token)[e + 1..]))
    else (unescape(Spaced(token)), "")
  }

  /** The next token of `left` and what comes after it; there is none if only delimiters are left. */
  ghost predicate IsNext(left: string, token: string, after: string) {
    var rest := left[Delimiters(left)..];
    token == rest[..TokenLength(rest)] && after == rest[TokenLength(rest)..]
  }

  method SkipDelimiters(my: array<char>, from: nat) returns (start: nat)
    requires from <= my.Length
    ensures from <= start <= my.Length && start == from + Delimiters(my[from..])
    ensures start < my.Length ==> my[start] != '&'
  {
    start := from;
    while start < my.Length && my[start] == '&'
      invariant from <= start <= my.Length && from + Delimiters(my[from..]) == start + Delimiters(my[start..])
    {
      assert my[start..][1..] == my[start + 1..];
      start := start + 1;
    }
  }

  method TokenEnd(my: array<char>, start: nat) returns (end: nat)
    requires start <= my.Length && (start < my.Length ==> my[start] != '&')
    ensures start <= end <= my.Length && end == start + TokenLength(my[start..])
    ensures start == my.Length <==> start == end
  {
    end := start;
    while end < my.Length && my[end] != '&'
      invariant start <= end <= my.Length && start + TokenLength(my[start..]) == end + TokenLength(my[end..])
    {
      assert my[end..][1..] == my[end + 1..];
      end := end + 1;
    }
  }

  /** `apr_strtok`: past the delimiters, up to the next one. */
  method NextToken(my: array<char>, from: nat) returns (start: nat, end: nat)
    requires from <= my.Length
    ensures from <= start <= end <= my.Length && (start == my.Length <==> start == end)
    ensures IsNext(my[from..], my[start..end], my[end..])
  {
    start := SkipDelimiters(my, from);
    end := TokenEnd(my, start);
    NextIs(my[..], from, start, end);
    assert my[from..] == my[..][from..] && my[start..] == my[..][start..] && my[end..] == my[..][end..];
    assert my[start..end] == my[..][start..end];
  }

  lemma NextIs(s: string, from: nat, start: nat, end: nat)
    requires from <= start <= end <= |s|
    requires start == from + Delimiters(s[from..]) && end == start + TokenLength(s[start..])
    ensures IsNext(s[from..], s[start..end], s[end..])
  {
    SliceOfSlice(s, from, start, end);
  }

  lemma SliceOfSlice<T>(s: seq<T>, a: nat, b: nat, c: nat)
    requires a <= b <= c <= |s|
    ensures s[a..][b - a..] == s[b..] && s[b..][..c - b] == s[b..c] && s[b..][c - b..] == s[c..]
  {
  }

  /** `trell_tokenize_args`, on a copy of the C string that it changes in place. */
  method TokenizeArgs(unescape: string -> string, args: string) returns (entries: map<string, string>)
    ensures entries == Args(unescape, Before('\0', args), map[])
  {
    entries := map[];
    var s := Before('\0', args);
    var my := new char[|s|](i requires 0 <= i < |s| => s[i]);
    assert my[0..] == s;
    var start, end := NextToken(my, 0);
    ghost var left := s;
    while start < my.Length
      invariant start <= end <= my.Length && (start == my.Length <==> start == end)
      invariant IsNext(left, my[start..end], my[end..])
      invariant Args(unescape, left, entries) == Args(unescape, s, map[])
      decreases my.Length - start
    {
      ArgsStep(unescape, left, entries, my[start..end], my[end..]);
      left := my[end..];
      var key, value := CutPair(unescape, my, start, end);
      entries := entries[key := value];
      start, end := NextToken(my, end);
    }
    ArgsEnd(unescape, left, entries, my[start..end], my[end..]);
  }

  lemma ArgsStep(unescape: string -> string, left: string, entries: map<string, string>, token: string, after: string)
    requires IsNext(left, token, after) && token != ""
    ensures var (key, value) := Entry(unescape, token);
            Args(unescape, left, entries) == Args(unescape, after, entries[key := value])
  {
    StartsWithToken(left);
  }

  lemma ArgsEnd(unescape: string -> string, left: string, entries: map<string, string>, token: string, after: string)
    requires IsNext(left, token, after) && token == ""
    ensures Args(unescape, left, entries) == entries
  {
    if left[Delimiters(left)..] != "" {
      StartsWithToken(left);
    }
  }

  /** The inner loop: one pair, its plus signs made spaces, cut at the first equal sign. */
  method CutPair(unescape: string -> string, my: array<char>, start: nat, end: nat)
    returns (key: string, value: string)
    requires start <= end <= my.Length
    modifies my
    ensures (key, value) == Entry(unescape, old(my[start..end]))
    ensures my[end..] == old(my[end..])
  {
    ghost var token := my[start..end];
    var eq := -1;
    for t := start to end
      invariant forall k :: t <= k < my.Length ==> my[k] == old(my[k])
      invariant forall k :: start <= k < t ==> my[k] == Spaced(token)[k - start]
      invariant if eq < 0 then EqualSign(token) >= t - start else eq - start == EqualSign(token) < t - start
    {
      EqualSignIs(token, t - start);
      assert token[t - start] == my[t];
      if my[t] == '+' {
        my[t] := ' ';
      } else if eq < 0 && my[t] == '=' {
        eq := t;
      }
    }
    assert my[start..end] == Spaced(token);
    assert my[end..] == old(my[end..]);
    if eq >= 0 {
      assert my[start..eq] == Spaced(token)[..eq - start] && my[eq + 1..end] == Spaced(token)[eq - start + 1..];
      key, value := unescape(my[start..eq]), unescape(my[eq + 1..end]);
    } else {
      key, value := unescape(my[start..end]), "";
    }
  }

  /** With no equal sign before `i`, there is one at `i` just if that is where the first one stands. */
  lemma {:induction false} EqualSignIs(s: string, i: nat)
    requires i < |s|
    ensures i <= EqualSign(s) ==> (s[i] == '=' <==> EqualSign(s) == i)
  {
    if i > 0 && s[0] != '=' {
      EqualSignIs(s[1..], i - 1);
    }
  }

  // ----- the round trip --------------------------------------------------------------------------

  ghost predicate Free(s: string, reserved: set<char>) {
    forall i :: 0 <= i < |s| ==> s[i] !in reserved
  }

  /** What must not be left in a value, and in a key. */
  const IN_VALUES := {'&', '#', '\0'}
  const IN_KEYS := IN_VALUES + {'='}

  /** Parameters that are escaped, as far as they need it to be kept apart. */
  ghost predicate Plain(params: Params) {
    forall i :: 0 <= i < |params| ==> Free(params[i].0, IN_KEYS) && Free(params[i].1, IN_VALUES)
  }

  /** Written with plus signs for some or all spaces: every plus sign stands for a space, and every other character
      for itself. */
  ghost predicate Spells(written: string, text: string) {
    && |written| == |text|
    && forall i :: 0 <= i < |text| ==>
         if written[i] == '+' then text[i] == ' ' else text[i] == written[i]
  }

  ghost predicate AllSpell(written: Params, params: Params) {
    && |written| == |params|
    && forall i :: 0 <= i < |params| ==> Spells(written[i].0, params[i].0) && Spells(written[i].1, params[i].1)
  }

  /** The parameters with their escapes undone. */
  function Undone(unescape: string -> string, params: Params): (r: Params)
    ensures |r| == |params|
  {
    seq(|params|, i requires 0 <= i < |params| => (unescape(params[i].0), unescape(params[i].1)))
  }

  lemma {:induction false} PrintedFirst(params: Params)
    requires params != []
    ensures Printed(params) == Pair(params[0]) + Printed(params[1..])
    decreases |params|
  {
    if |params| > 1 {
      var init := params[..|params| - 1];
      PrintedFirst(init);
      assert params[1..][..|params| - 2] == init[1..];
    }
  }

  lemma {:induction false} ContentsFirst(params: Params)
    requires params != []
    ensures Contents(params) == map[params[0].0 := params[0].1] + Contents(params[1..])
    decreases |params|
  {
    if |params| > 1 {
      var init := params[..|params| - 1];
      ContentsFirst(init);
      assert params[1..][..|params| - 2] == init[1..];
    }
  }

  lemma SpellsSpaced(written: string, text: string)
    ensures Spells(written, text) <==> Spaced(written) == text
  {
    if Spells(written, text) {
      assert Spaced(written) == text;
    }
  }

  lemma {:induction false} EqualSignAfter(key: string, rest: string)
    requires Free(key, {'='})
    ensures EqualSign(key + "=" + rest) == |key|
  {
    var s := key + "=" + rest;
    if key != "" {
      assert key[0] != '=';
      FreeRest(key, {'='});
      assert s[1..] == key[1..] + "=" + rest;
      EqualSignAfter(key[1..], rest);
    }
  }

  lemma FreeRest(s: string, reserved: set<char>)
    requires s != "" && Free(s, reserved)
    ensures Free(s[1..], reserved)
  {
    forall i | 0 <= i < |s| - 1
      ensures s[1..][i] !in reserved
    {
      assert s[1..][i] == s[i + 1];
    }
  }

  lemma {:induction false} TokenLengthBefore(token: string, rest: string)
    requires Free(token, {'&'})
    ensures TokenLength(token + "&" + rest) == |token|
  {
    var s := token + "&" + rest;
    if token != "" {
      assert token[0] != '&';
      FreeRest(token, {'&'});
      assert s[1..] == token[1..] + "&" + rest;
      TokenLengthBefore(token[1..], rest);
    }
  }

  /** What a token with an equal sign holds: what is spelled before the first one, and what after it. */
  lemma EntryOfPair(unescape: string -> string, k: string, v: string, key: string, value: string)
    requires Free(k, {'='}) && Spells(k, key) && Spells(v, value)
    ensures Entry(unescape, k + "=" + v) == (unescape(key), unescape(value))
  {
    var token := k + "=" + v;
    EqualSignAfter(k, v);
    SpellsSpaced(k, key);
    SpellsSpaced(v, value);
    assert Spaced(token)[..|k|] == Spaced(k) && Spaced(token)[|k| + 1..] == Spaced(v);
  }

  /** What one without an equal sign holds: a key, and no text. */
  lemma EntryOfFlag(unescape: string -> string, k: string, key: string)
    requires Free(k, {'='}) && Spells(k, key)
    ensures Entry(unescape, k) == (unescape(key), "")
  {
    NoEqualSign(k);
    SpellsSpaced(k, key);
  }

  lemma {:induction false} NoEqualSign(s: string)
    requires Free(s, {'='})
    ensures EqualSign(s) == |s|
  {
    if s != "" {
      assert s[0] != '=';
      FreeRest(s, {'='});
      NoEqualSign(s[1..]);
    }
  }

  /** A printed pair is read as what it spells, with the escapes undone. */
  lemma ArgsOfPair(unescape: string -> string, p: (string, string), q: (string, string), rest: string,
                   entries: map<string, string>)
    requires Free(p.0, {'&', '='}) && Free(p.1, {'&'}) && Spells(p.0, q.0) && Spells(p.1, q.1)
    ensures Args(unescape, Pair(p) + rest, entries) == Args(unescape, rest, entries[unescape(q.0) := unescape(q.1)])
  {
    var token := p.0 + "=" + p.1;
    assert Pair(p) + rest == token + "&" + rest;
    PairIsFree(p.0, p.1);
    EntryOfPair(unescape, p.0, p.1, q.0, q.1);
    ArgsOfToken(unescape, token, rest, entries);
  }

  /** A token without an equal sign is a key with an empty value. */
  lemma ArgsOfFlag(unescape: string -> string, k: string, key: string, rest: string, entries: map<string, string>)
    requires k != "" && Free(k, {'&', '='}) && Spells(k, key)
    ensures Args(unescape, k + "&" + rest, entries) == Args(unescape, rest, entries[unescape(key) := ""])
  {
    EntryOfFlag(unescape, k, key);
    ArgsOfToken(unescape, k, rest, entries);
  }

  lemma PairIsFree(k: string, v: string)
    requires Free(k, {'&'}) && Free(v, {'&'})
    ensures Free(k + "=" + v, {'&'})
  {
    var token := k + "=" + v;
    forall i | 0 <= i < |token|
      ensures token[i] !in {'&'}
    {
      assert token[i] == if i < |k| then k[i] else if i == |k| then '=' else v[i - |k| - 1];
    }
  }

  lemma ArgsOfToken(unescape: string -> string, token: string, rest: string, entries: map<string, string>)
    requires token != "" && Free(token, {'&'})
    ensures var (key, value) := Entry(unescape, token);
            Args(unescape, token + "&" + rest, entries) == Args(unescape, rest, entries[key := value])
  {
    var s := token + "&" + rest;
    TokenLengthBefore(token, rest);
    assert s[0] == token[0] != '&';
    assert s[0..] == s && s[|token|..] == "&" + rest && s[..|token|] == token;
    ArgsStep(unescape, s, entries, token, "&" + rest);
    var (key, value) := Entry(unescape, token);
    ArgsAfterDelimiter(unescape, rest, entries[key := value]);
  }

  lemma ArgsAfterDelimiter(unescape: string -> string, s: string, entries: map<string, string>)
    ensures Args(unescape, "&" + s, entries) == Args(unescape, s, entries)
  {
    var d := "&" + s;
    assert d[1..] == s;
    assert Delimiters(d) == 1 + Delimiters(s);
    assert d[Delimiters(d)..] == s[Delimiters(s)..];
  }

  /** `unescape` leaves alone what has no percent sign. */
  ghost predicate Unescapes(unescape: string -> string) {
    forall s: string :: Free(s, {'%'}) ==> unescape(s) == s
  }

  lemma {:induction false} ArgsOfPrinted(unescape: string -> string, written: Params, params: Params,
                                         entries: map<string, string>)
    requires Plain(written) && AllSpell(written, params)
    ensures Args(unescape, Printed(written), entries) == entries + Contents(Undone(unescape, params))
  {
    if written != [] {
      var p, q, rest := written[0], params[0], params[1..];
      var done := Undone(unescape, params);
      PrintedFirst(written);
      ContentsFirst(done);
      PlainRest(written);
      SpellRest(written, params);
      UndoneRest(unescape, params);
      ArgsOfPair(unescape, p, q, Printed(written[1..]), entries);
      ArgsOfPrinted(unescape, written[1..], rest, entries[unescape(q.0) := unescape(q.1)]);
      Override(entries, done[0], Contents(done[1..]));
    }
  }

  lemma SpellRest(written: Params, params: Params)
    requires written != [] && AllSpell(written, params)
    ensures Spells(written[0].0, params[0].0) && Spells(written[0].1, params[0].1)
    ensures AllSpell(written[1..], params[1..])
  {
    forall i | 0 <= i < |params| - 1
      ensures Spells(written[1..][i].0, params[1..][i].0) && Spells(written[1..][i].1, params[1..][i].1)
    {
      assert written[1..][i] == written[i + 1] && params[1..][i] == params[i + 1];
    }
  }

  lemma UndoneRest(unescape: string -> string, params: Params)
    requires params != []
    ensures Undone(unescape, params)[0] == (unescape(params[0].0), unescape(params[0].1))
    ensures Undone(unescape, params)[1..] == Undone(unescape, params[1..])
  {
  }

  lemma PlainRest(params: Params)
    requires params != [] && Plain(params)
    ensures Free(params[0].0, IN_KEYS) && Free(params[0].1, IN_VALUES) && Plain(params[1..])
  {
    forall i | 0 <= i < |params| - 1
      ensures Free(params[1..][i].0, IN_KEYS) && Free(params[1..][i].1, IN_VALUES)
    {
      assert params[1..][i] == params[i + 1];
    }
  }

  lemma Override(m: map<string, string>, p: (string, string), n: map<string, string>)
    ensures m[p.0 := p.1] + n == m + (map[p.0 := p.1] + n)
  {
  }

  /** What follows a delimiter is read after what stands before it. */
  lemma {:induction false} ArgsJoin(unescape: string -> string, a: string, b: string, entries: map<string, string>)
    ensures Args(unescape, a + "&" + b, entries) == Args(unescape, b, Args(unescape, a, entries))
    decreases |a|
  {
    var s := a + "&" + b;
    if a == "" {
      assert s == "&" + b;
      ArgsAfterDelimiter(unescape, b, entries);
    } else if a[0] == '&' {
      assert s == "&" + (a[1..] + "&" + b) && a == "&" + a[1..];
      ArgsAfterDelimiter(unescape, a[1..] + "&" + b, entries);
      ArgsAfterDelimiter(unescape, a[1..], entries);
      ArgsJoin(unescape, a[1..], b, entries);
    } else {
      var n := TokenLength(a);
      TokenLengthJoin(a, b);
      assert a[0..] == a && s[0..] == s && s[..n] == a[..n] && s[n..] == a[n..] + "&" + b;
      StartsWithToken(a);
      ArgsStep(unescape, a, entries, a[..n], a[n..]);
      ArgsStep(unescape, s, entries, a[..n], a[n..] + "&" + b);
      var (key, value) := Entry(unescape, a[..n]);
      ArgsJoin(unescape, a[n..], b, entries[key := value]);
    }
  }

  lemma {:induction false} TokenLengthJoin(a: string, b: string)
    ensures TokenLength(a + "&" + b) == TokenLength(a)
  {
    if a != "" {
      assert (a + "&" + b)[1..] == a[1..] + "&" + b;
      TokenLengthJoin(a[1..], b);
    }
  }

  lemma {:induction false} QuestionMarkExtends(s: string, more: string)
    ensures '?' in s ==> AfterQuestionMark(s + more) == AfterQuestionMark(s) + more
    ensures '?' !in s ==> AfterQuestionMark(s) == "" && AfterQuestionMark(s + "?" + more) == more
  {
    if s != "" {
      assert (s + more)[1..] == s[1..] + more;
      assert (s + "?" + more)[1..] == s[1..] + "?" + more;
      assert s[0] == '?' || '?' in s[1..] <==> '?' in s;
      QuestionMarkExtends(s[1..], more);
    } else {
      assert (s + "?" + more)[1..] == more;
    }
  }

  /** What `getURL` returns. */
  function PrintedURL(url: string, params: Params): string {
    url + (if '?' in url then "&" else "?") + Printed(params)
  }

  /** Plain parameters print no number sign and no NUL. */
  lemma {:induction false} PrintedIsPlain(params: Params, c: char)
    requires Plain(params) && (c == '#' || c == '\0')
    ensures Before(c, Printed(params)) == Printed(params)
  {
    if params != [] {
      var init, p := params[..|params| - 1], params[|params| - 1];
      PrintedIsPlain(init, c);
      assert Free(p.0, IN_KEYS) && Free(p.1, IN_VALUES);
      BeforeIsAll(c, Pair(p));
      BeforeJoin(c, Printed(init), Pair(p));
    }
  }

  lemma {:induction false} BeforeIsAll(c: char, s: string)
    requires c !in s
    ensures Before(c, s) == s
  {
    if s != "" {
      BeforeIsAll(c, s[1..]);
    }
  }

  lemma QueryOfURL(url: string)
    requires '#' !in url
    ensures Query(url) == AfterQuestionMark(url)
  {
    BeforeIsAll('#', url);
  }

  /** The query of the printed URL, when no fragment comes before the parameters. */
  lemma QueryOfPrinted(url: string, params: Params)
    requires Plain(params) && '#' !in url
    ensures Query(PrintedURL(url, params)) == if '?' in url then Query(url) + "&" + Printed(params) else Printed(params)
    ensures '?' !in url ==> Query(url) == ""
  {
    PrintedIsPlain(params, '#');
    QueryOfURL(url);
    QueryOfURL(PrintedURL(url, params));
    QuestionMarkAdded(url, Printed(params));
  }

  lemma QuestionMarkAdded(url: string, t: string)
    ensures AfterQuestionMark(url + (if '?' in url then "&" else "?") + t)
            == if '?' in url then AfterQuestionMark(url) + "&" + t else t
    ensures '?' !in url ==> AfterQuestionMark(url) == ""
  {
    if '?' in url {
      QuestionMarkExtends(url, "&" + t);
      Associative(url, "&", t);
      Associative(AfterQuestionMark(url), "&", t);
    } else {
      QuestionMarkExtends(url, t);
    }
  }

  lemma Associative(a: string, b: string, c: string)
    ensures a + b + c == a + (b + c)
  {
  }

  /** The same after NUL has been looked for. */
  lemma ReceivedOfPrinted(url: string, params: Params)
    requires Plain(params) && '#' !in url && '\0' !in Query(url)
    ensures Received(PrintedURL(url, params))
            == if '?' in url then Received(url) + "&" + Printed(params) else Printed(params)
    ensures '?' !in url ==> Received(url) == ""
  {
    var t := Printed(params);
    QueryOfPrinted(url, params);
    PrintedIsPlain(params, '\0');
    BeforeIsAll('\0', Query(url));
    BeforeIsAll('\0', Query(url) + "&" + t);
  }

  /** The server reads from the URL that the client printed what the URL held before, and over it what the parameters
      spell with their escapes undone, unless the URL hides what comes after it. */
  lemma EscapedRoundTrip(unescape: string -> string, url: string, written: Params, params: Params)
    requires Plain(written) && AllSpell(written, params) && '#' !in url && '\0' !in Query(url)
    ensures Args(unescape, Received(PrintedURL(url, written)), map[])
         == Args(unescape, Received(url), map[]) + Contents(Undone(unescape, params))
  {
    ReceivedOfPrinted(url, written);
    ReadOver(unescape, Received(url), written, params, map[]);
    if '?' !in url {
      ArgsOfPrinted(unescape, written, params, map[]);
    }
  }

  lemma ReadOver(unescape: string -> string, q: string, written: Params, params: Params, entries: map<string, string>)
    requires Plain(written) && AllSpell(written, params)
    ensures Args(unescape, q + "&" + Printed(written), entries)
         == Args(unescape, q, entries) + Contents(Undone(unescape, params))
  {
    ArgsJoin(unescape, q, Printed(written), entries);
    ArgsOfPrinted(unescape, written, params, Args(unescape, q, entries));
  }

  /** No percent sign, so nothing is taken for an escape. */
  ghost predicate Unescaped(params: Params) {
    forall i :: 0 <= i < |params| ==> Free(params[i].0, {'%'}) && Free(params[i].1, {'%'})
  }

  /** So parameters without percent signs come back as they are, whether their spaces are written as spaces or as
      plus signs. */
  lemma RoundTrip(unescape: string -> string, url: string, written: Params, params: Params)
    requires Plain(written) && AllSpell(written, params) && Unescaped(params) && Unescapes(unescape)
    requires '#' !in url && '\0' !in Query(url)
    ensures Args(unescape, Received(PrintedURL(url, written)), map[])
         == Args(unescape, Received(url), map[]) + Contents(params)
  {
    EscapedRoundTrip(unescape, url, written, params);
    forall i | 0 <= i < |params|
      ensures Undone(unescape, params)[i] == params[i]
    {
      assert Free(params[i].0, {'%'}) && Free(params[i].1, {'%'});
    }
    assert Undone(unescape, params) == params;
  }

  /** With a fragment, or a NUL in its query, the URL hides all parameters: the server reads what it read before. */
  lemma FragmentHides(url: string, params: Params)
    requires '#' in url || '\0' in Query(url)
    ensures Received(PrintedURL(url, params)) == Received(url)
  {
    var more := (if '?' in url then "&" else "?") + Printed(params);
    assert PrintedURL(url, params) == url + more;
    BeforeJoin('#', url, more);
    if '#' !in url {
      BeforeIsAll('#', url);
      QuestionMarkExtends(url, Before('#', more));
      BeforeJoin('\0', Query(url), Before('#', more));
    }
  }
}
