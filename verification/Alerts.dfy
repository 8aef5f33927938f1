/**
 The Markdown core rule that turns a block quote starting with `[!NOTE]` and the
 like into an alert box, by retagging tokens of the flat token list and splicing
 a title in.  The specification is a transformation of the quote tree the list
 stands for.
 */
module Alerts {
  import opened Basics

  datatype Kind = Open | Close | Inline | Other
  // `lead` is the text of the first child, if there is one and it is a text node.
  datatype Token = Token(kind: Kind, tag: string, cls: Option<string>, content: string, lead: Option<string>)

  // ---- The marker ----

  const KINDS: seq<string> := ["NOTE", "TIP", "IMPORTANT", "WARNING", "CAUTION"]
  const CLASSES: seq<string> := ["note", "tip", "important", "warning", "caution"]

  datatype Match = Match(kind: nat, rest: string)

  predicate IsSpace(c: char) {
    || c == ' ' || '\t' <= c <= '\r' || c == '\U{00A0}' || c == '\U{1680}' || '\U{2000}' <= c <= '\U{200A}'
    || c == '\U{2028}' || c == '\U{2029}' || c == '\U{202F}' || c == '\U{205F}' || c == '\U{3000}' || c == '\U{FEFF}'
  }

  function SkipSpace(s: string): string {
    if s != "" && IsSpace(s[0]) then SkipSpace(s[1..]) else s
  }

  function Bracketed(k: nat): string
    requires k < 5
  {
    "[!" + KINDS[k] + "]"
  }

  function Marker(content: string): Option<Match> { MarkerFrom(content, 0) }

  function MarkerFrom(content: string, k: nat): Option<Match>
    requires k <= 5
    decreases 5 - k
  {
    if k == 5 then None
    else if Bracketed(k) <= content then Some(Match(k, SkipSpace(content[|Bracketed(k)|..])))
    else MarkerFrom(content, k + 1)
  }

  // Without its marker, if it starts with one.
  function Unmarked(s: string): string {
    if Marker(s).Some? then Marker(s).value.rest else s
  }

  // The inline token whose marker is cut, leaving `text`, both in it and in its first child.
  function Cut(inline: Token, text: string): Token {
    inline.(content := text, lead := if inline.lead.Some? then Some(Unmarked(inline.lead.value)) else None)
  }

  function Alerted(open: Token, k: nat): Token
    requires k < 5
  {
    var v := "docs-alert docs-alert-" + CLASSES[k];
    open.(tag := "div", cls := Some(if open.cls.Some? then open.cls.value + " " + v else v))
  }

  function Title(k: nat): Token
    requires k < 5
  {
    Token(Other, "", None, "<p class=\"docs-alert-title\">" + KINDS[k] + "</p>\n", None)
  }

  lemma {:induction false} MarkerKind(content: string, k: nat)
    requires k <= 5 && MarkerFrom(content, k).Some?
    ensures MarkerFrom(content, k).value.kind < 5
    decreases 5 - k
  {
    if k < 5 && !(Bracketed(k) <= content) { MarkerKind(content, k + 1); }
  }

  // ---- What a marker is ----

  predicate IsWord(w: string) {
    w == "NOTE" || w == "TIP" || w == "IMPORTANT" || w == "WARNING" || w == "CAUTION"
  }

  // The text starts with "[!w]", and `rest` is what follows it and the white space behind.
  ghost predicate AlertText(content: string, w: string, rest: string) {
    && IsWord(w) && "[!" + w + "]" <= content
    && |w| + 3 + |rest| <= |content| && rest == content[|content| - |rest|..]
    && (forall i :: |w| + 3 <= i < |content| - |rest| ==> IsSpace(content[i]))
    && (rest != "" ==> !IsSpace(rest[0]))
  }

  ghost predicate Unmarkable(content: string) {
    forall w :: IsWord(w) ==> !("[!" + w + "]" <= content)
  }

  function Lower(s: string): string {
    seq(|s|, i requires 0 <= i < |s| => if 'A' <= s[i] <= 'Z' then (s[i] as int + 32) as char else s[i])
  }

  lemma KindsAndClasses(k: nat)
    requires k < 5
    ensures IsWord(KINDS[k]) && CLASSES[k] == Lower(KINDS[k])
  {
    var w, c := KINDS[k], CLASSES[k];
    assert |c| == |w| <= 9;
    assert forall i :: 0 <= i < |w| ==> c[i] == Lower(w)[i];
  }

  lemma KindOfWord(w: string) returns (k: nat)
    requires IsWord(w)
    ensures k < 5 && KINDS[k] == w
  {
    k := if w == "NOTE" then 0 else if w == "TIP" then 1 else if w == "IMPORTANT" then 2
      else if w == "WARNING" then 3 else 4;
  }

  lemma {:induction false} SkipSpaceExactly(s: string)
    ensures var r := SkipSpace(s);
      && |r| <= |s| && r == s[|s| - |r|..] && (forall i :: 0 <= i < |s| - |r| ==> IsSpace(s[i]))
      && (r != "" ==> !IsSpace(r[0]))
  {
    if s != "" && IsSpace(s[0]) { SkipSpaceExactly(s[1..]); }
  }

  // Two markers differ before either ends.
  lemma OneKind(content: string, k: nat, l: nat)
    requires k < 5 && l < 5 && Bracketed(k) <= content && Bracketed(l) <= content
    ensures k == l
  {
    assert content[2] == KINDS[k][0] == KINDS[l][0];
  }

  lemma {:induction false} MarkerFromExactly(content: string, k: nat)
    requires k <= 5
    ensures MarkerFrom(content, k).None? <==> forall l: nat :: k <= l < 5 ==> !(Bracketed(l) <= content)
    ensures MarkerFrom(content, k).Some? ==>
      && k <= MarkerFrom(content, k).value.kind < 5 && Bracketed(MarkerFrom(content, k).value.kind) <= content
      && MarkerFrom(content, k).value.rest == SkipSpace(content[|Bracketed(MarkerFrom(content, k).value.kind)|..])
    decreases 5 - k
  {
    hide Bracketed;
    if k < 5 && !(Bracketed(k) <= content) { MarkerFromExactly(content, k + 1); }
  }

  /** The marker of a text is the one of the five it starts with, and what is left is the
      text behind it and the white space after it; only other texts have none. */
  lemma MarkerExactly(content: string)
    ensures Marker(content).None? <==> Unmarkable(content)
    ensures forall w, rest ::
      AlertText(content, w, rest) <==>
      Marker(content).Some? && Marker(content).value.kind < 5 && w == KINDS[Marker(content).value.kind]
        && rest == Marker(content).value.rest
  {
    MarkerFromExactly(content, 0);
    var m := Marker(content);
    if m.Some? {
      var k := m.value.kind;
      KindsAndClasses(k);
      assert Bracketed(k) == "[!" + KINDS[k] + "]";
      SkipSpaceExactly(content[|Bracketed(k)|..]);
      assert AlertText(content, KINDS[k], m.value.rest);
      forall w, rest | AlertText(content, w, rest) ensures w == KINDS[k] && rest == m.value.rest {
        var l := KindOfWord(w);
        OneKind(content, k, l);
        SameRest(content, w, rest, m.value.rest);
      }
    } else {
      forall w | IsWord(w) ensures !("[!" + w + "]" <= content) {
        var l := KindOfWord(w);
        assert !(Bracketed(l) <= content);
      }
    }
  }

  lemma SameRest(content: string, w: string, rest: string, rest': string)
    requires AlertText(content, w, rest) && AlertText(content, w, rest')
    ensures rest == rest'
  {
    var n := |content|;
    assert rest != "" ==> rest[0] == content[n - |rest|];
    assert rest' != "" ==> rest'[0] == content[n - |rest'|];
  }

  // ---- What a converted quote is ----

  // The opening of an alert of this word: a div with the alert's classes joined on.
  predicate BoxOpening(open: Token, w: string, open': Token) {
    var classes := "docs-alert docs-alert-" + Lower(w);
    open' == open.(tag := "div",
      cls := Some(if open.cls.Some? then open.cls.value + " " + classes else classes))
  }

  predicate BoxTitle(title: Token, w: string) {
    title == Token(Other, "", None, "<p class=\"docs-alert-title\">" + w + "</p>\n", None)
  }

  // The inline token without its marker, which leaves `rest`; a first text node loses its own.
  ghost predicate BoxText(inline: Token, rest: string, inline': Token) {
    && inline' == inline.(content := rest, lead := inline'.lead)
    && inline'.lead.Some? == inline.lead.Some?
    && (inline.lead.Some? ==>
         && (Unmarkable(inline.lead.value) ==> inline'.lead == inline.lead)
         && forall w, r :: AlertText(inline.lead.value, w, r) ==> inline'.lead.value == r)
  }

  lemma BoxForms(open: Token, inline: Token, k: nat, rest: string)
    requires k < 5
    ensures BoxOpening(open, KINDS[k], Alerted(open, k))
    ensures BoxTitle(Title(k), KINDS[k])
    ensures BoxText(inline, rest, Cut(inline, rest))
  {
    KindsAndClasses(k);
    hide Lower, AlertText, Unmarkable, Marker;
    if inline.lead.Some? { MarkerExactly(inline.lead.value); }
  }

  // ---- The rule on flat lists ----

  // Offset of the first inline token or closing quote, or the length.
  function StopOffset(ts: seq<Token>): (j: nat)
    ensures j <= |ts|
    ensures j < |ts| ==> ts[j].kind.Inline? || ts[j].kind.Close?
    ensures forall h :: 0 <= h < j ==> !ts[h].kind.Inline? && !ts[h].kind.Close?
  {
    if ts == [] || ts[0].kind.Inline? || ts[0].kind.Close? then 0 else 1 + StopOffset(ts[1..])
  }

  // Offset of the close that brings `depth` open quotes back to none, or the length.
  function CloseOffset(ts: seq<Token>, depth: nat): (k: nat)
    requires depth > 0
    ensures k <= |ts|
    ensures k < |ts| ==> ts[k].kind.Close?
  {
    if ts == [] then 0
    else if DepthAfter(ts[0], depth) == 0 then 0
    else 1 + CloseOffset(ts[1..], DepthAfter(ts[0], depth))
  }

  function DepthAfter(t: Token, depth: nat): nat
    requires t.kind.Close? ==> depth > 0
  {
    if t.kind.Open? then depth + 1 else if t.kind.Close? then depth - 1 else depth
  }

  // The position from k on at which `depth` open quotes are closed.
  function CloseFrom(ts: seq<Token>, k: nat, depth: nat): nat
    requires k <= |ts| && depth > 0
  {
    k + CloseOffset(ts[k..], depth)
  }

  lemma CloseStep(ts: seq<Token>, k: nat, depth: nat)
    requires k < |ts| && depth > 0
    ensures var after := DepthAfter(ts[k], depth);
      CloseFrom(ts, k, depth) == if after == 0 then k else CloseFrom(ts, k + 1, after)
  {
    assert ts[k..][0] == ts[k] && ts[k..][1..] == ts[k + 1..];
  }

  lemma NoClose(ts: seq<Token>, depth: nat)
    requires depth > 0
    ensures CloseFrom(ts, |ts|, depth) == |ts|
  {
    assert ts[|ts|..] == [];
  }

  // The alert a quote is, judged by the tokens after its opening.
  function AlertAfter(ts: seq<Token>): Option<Match> {
    var j := StopOffset(ts);
    if j < |ts| && ts[j].kind.Inline? then Marker(ts[j].content) else None
  }

  // The tokens of a converted quote, from its opening to its close.
  function Convert(open: Token, body: seq<Token>, close: Token, m: Match): seq<Token>
    requires m.kind < 5 && StopOffset(body) < |body|
  {
    var j := StopOffset(body);
    [Alerted(open, m.kind), Title(m.kind)] + body[j := Cut(body[j], m.rest)] + [close.(tag := "div")]
  }

  // The whole pass; None where the rule dereferences a missing token.
  function Rewritten(ts: seq<Token>): Option<seq<Token>>
    decreases |ts|
  {
    if ts == [] then Some([]) else
    var rest := ts[1..];
    var m := AlertAfter(rest);
    if !ts[0].kind.Open? || m.None? then Prepend([ts[0]], Rewritten(rest)) else
    var k := CloseOffset(rest, 1);
    if k == |rest| then None else
    MarkerKind(rest[StopOffset(rest)].content, 0);
    StopBeforeClose(rest, 1);
    Prepend(Convert(ts[0], rest[..k], rest[k], m.value), Rewritten(rest[k + 1..]))
  }

  // An inline token found first lies before the matching close.
  lemma {:induction false} StopBeforeClose(ts: seq<Token>, depth: nat)
    requires depth > 0 && CloseOffset(ts, depth) < |ts|
    requires StopOffset(ts) < |ts| && ts[StopOffset(ts)].kind.Inline?
    ensures StopOffset(ts) < CloseOffset(ts, depth)
    ensures StopOffset(ts[..CloseOffset(ts, depth)]) == StopOffset(ts)
  {
    var k := CloseOffset(ts, depth);
    if !ts[0].kind.Inline? {
      StopBeforeClose(ts[1..], if ts[0].kind.Open? then depth + 1 else depth);
      assert ts[..k][1..] == ts[1..][..k - 1];
    }
  }

  // The four in-place writes to the list.
  function Spliced(ts: seq<Token>, i: nat, j: nat, k: nat, m: Match): seq<Token>
    requires i < j < k < |ts| && m.kind < 5
  {
    var a := ts[j := Cut(ts[j], m.rest)][i := Alerted(ts[i], m.kind)][k := ts[k].(tag := "div")];
    a[..i + 1] + [Title(m.kind)] + a[i + 1..]
  }

  // They convert the tokens from i to k and nothing else.
  lemma SplicedShape(ts: seq<Token>, i: nat, j: nat, k: nat, m: Match)
    requires i < j < k < |ts| && m.kind < 5
    ensures |Spliced(ts, i, j, k, m)| == |ts| + 1
    ensures Spliced(ts, i, j, k, m)[k + 2..] == ts[k + 1..]
    ensures j == i + 1 + StopOffset(ts[i + 1..k]) ==>
      Spliced(ts, i, j, k, m)[..k + 2] == ts[..i] + Convert(ts[i], ts[i + 1..k], ts[k], m)
  {
    hide StopOffset, Alerted, Title;
    assert ts[i + 1..k][j - i - 1] == ts[j];
    WritesThenInsert(ts, i, j, k, Alerted(ts[i], m.kind), Cut(ts[j], m.rest), ts[k].(tag := "div"),
      Title(m.kind));
  }

  lemma SplicedAt(ts: seq<Token>, i: nat, j: nat, k: nat, m: Match)
    requires i < j < k < |ts| && m.kind < 5
    ensures var out := Spliced(ts, i, j, k, m);
      && |out| == |ts| + 1 && (forall h :: 0 <= h < i ==> out[h] == ts[h])
      && (forall h :: i < h < |ts| && h != j && h != k ==> out[h + 1] == ts[h])
      && out[i] == Alerted(ts[i], m.kind) && out[i + 1] == Title(m.kind)
      && out[j + 1] == Cut(ts[j], m.rest) && out[k + 1] == ts[k].(tag := "div")
  {
    hide Alerted, Title, Cut;
  }

  lemma WritesThenInsert<T>(s: seq<T>, i: nat, j: nat, k: nat, x: T, y: T, z: T, t: T)
    requires i < j < k < |s|
    ensures var a := s[j := y][i := x][k := z];
      var out := a[..i + 1] + [t] + a[i + 1..];
      && |out| == |s| + 1 && out[k + 2..] == s[k + 1..]
      && out[..k + 2] == s[..i] + ([x, t] + s[i + 1..k][j - i - 1 := y] + [z])
  {
    var a := s[j := y][i := x][k := z];
    var front, mid, back := s[..i], s[i + 1..k][j - i - 1 := y], s[k + 1..];
    WritesInPlace(s, i, j, k, x, y, z);
    InsertAfter(front, x, mid + [z] + back, t);
    Regroup(front, [x, t], mid, [z], back);
    CutAfter(front + ([x, t] + mid + [z]), back, a[..i + 1] + [t] + a[i + 1..]);
  }

  lemma WritesInPlace<T>(s: seq<T>, i: nat, j: nat, k: nat, x: T, y: T, z: T)
    requires i < j < k < |s|
    ensures s[j := y][i := x][k := z] == s[..i] + [x] + (s[i + 1..k][j - i - 1 := y] + [z] + s[k + 1..])
  {
  }

  lemma Regroup<T>(a: seq<T>, b: seq<T>, c: seq<T>, d: seq<T>, e: seq<T>)
    ensures a + b + (c + d + e) == (a + (b + c + d)) + e
  {
    Associate(a, b, c + d + e);
    Associate(b, c + d, e);
    Associate(b, c, d);
    Associate(a, b + c + d, e);
  }

  lemma InsertAfter<T>(front: seq<T>, x: T, rest: seq<T>, t: T)
    ensures var a := front + [x] + rest;
      a[..|front| + 1] + [t] + a[|front| + 1..] == front + [x, t] + rest
  {
  }

  lemma CutAfter<T>(front: seq<T>, back: seq<T>, all: seq<T>)
    requires all == front + back
    ensures all[..|front|] == front && all[|front|..] == back
  {
  }

  // What the pass yields once it has dealt with the first i tokens.
  ghost function Remaining(ts: seq<Token>, i: nat): Option<seq<Token>>
    requires i <= |ts|
  {
    Prepend(ts[..i], Rewritten(ts[i..]))
  }

  lemma AlertBeforeClose(ts: seq<Token>, k: nat, m: Match)
    requires AlertAfter(ts) == Some(m) && k < |ts| && CloseOffset(ts, 1) == k
    ensures m.kind < 5 && StopOffset(ts) < k && StopOffset(ts[..k]) == StopOffset(ts)
  {
    hide StopOffset, CloseOffset, MarkerFrom;
    MarkerKind(ts[StopOffset(ts)].content, 0);
    StopBeforeClose(ts, 1);
  }

  lemma RewrittenAlert(ts: seq<Token>, k: nat, m: Match)
    requires ts != [] && ts[0].kind.Open? && AlertAfter(ts[1..]) == Some(m)
    requires k < |ts[1..]| && CloseOffset(ts[1..], 1) == k
    ensures m.kind < 5 && StopOffset(ts[1..]) < k && StopOffset(ts[1..][..k]) == StopOffset(ts[1..])
    ensures Rewritten(ts) == Prepend(Convert(ts[0], ts[1..][..k], ts[1..][k], m), Rewritten(ts[1..][k + 1..]))
  {
    hide StopOffset, CloseOffset, AlertAfter, Convert, Prepend;
    AlertBeforeClose(ts[1..], k, m);
  }

  lemma RewrittenAt(ts: seq<Token>, i: nat, k: nat, m: Match)
    requires i < k < |ts| && ts[i].kind.Open? && k == i + 1 + CloseOffset(ts[i + 1..], 1)
    requires AlertAfter(ts[i + 1..]) == Some(m)
    ensures m.kind < 5 && i + 1 + StopOffset(ts[i + 1..]) < k && StopOffset(ts[i + 1..k]) == StopOffset(ts[i + 1..])
    ensures Rewritten(ts[i..]) == Prepend(Convert(ts[i], ts[i + 1..k], ts[k], m), Rewritten(ts[k + 1..]))
  {
    var rest, n := ts[i + 1..], k - i - 1;
    assert ts[i..][1..] == rest && ts[i..][0] == ts[i];
    assert rest[..n] == ts[i + 1..k] && rest[n] == ts[k] && rest[n + 1..] == ts[k + 1..];
    RewrittenAlert(ts[i..], n, m);
  }

  lemma ConvertedInPlace(ts: seq<Token>, i: nat, k: nat, m: Match, out: seq<Token>, next: nat)
    requires i < k < |ts| && next <= |out| && m.kind < 5 && StopOffset(ts[i + 1..k]) < k - i - 1
    requires Rewritten(ts[i..]) == Prepend(Convert(ts[i], ts[i + 1..k], ts[k], m), Rewritten(ts[k + 1..]))
    requires out[next..] == ts[k + 1..] && out[..next] == ts[..i] + Convert(ts[i], ts[i + 1..k], ts[k], m)
    ensures Remaining(out, next) == Remaining(ts, i)
  {
    PrependTwice(ts[..i], Convert(ts[i], ts[i + 1..k], ts[k], m), Rewritten(ts[k + 1..]));
  }

  lemma Unclosed(ts: seq<Token>, i: nat)
    requires i < |ts| && ts[i].kind.Open? && AlertAfter(ts[i + 1..]).Some? &&
      CloseOffset(ts[i + 1..], 1) == |ts| - i - 1
    ensures Remaining(ts, i).None?
  {
    assert ts[i..][0] == ts[i] && ts[i..][1..] == ts[i + 1..];
  }

  lemma PassOver(ts: seq<Token>, i: nat)
    requires i < |ts|
    requires !ts[i].kind.Open? || AlertAfter(ts[i + 1..]).None?
    ensures Remaining(ts, i) == Remaining(ts, i + 1)
  {
    assert ts[i..][0] == ts[i] && ts[i..][1..] == ts[i + 1..];
    PrependTwice(ts[..i], [ts[i]], Rewritten(ts[i + 1..]));
    assert ts[..i] + [ts[i]] == ts[..i + 1];
  }

  class CoreState {
    var tokens: seq<Token>

    constructor (tokens: seq<Token>)
      ensures this.tokens == tokens
    {
      this.tokens := tokens;
    }

    // The close matching the opening at i, or the list's length.
    method FindClose(i: nat) returns (k: nat)
      requires i < |tokens| && tokens[i].kind.Open?
      ensures k == CloseFrom(tokens, i + 1, 1)
    {
      hide CloseOffset;
      ghost var ts := tokens;
      var depth := 0;
      k := i;
      while k < |tokens|
        invariant i <= k <= |tokens|
        invariant k == i ==> depth == 0
        invariant k > i ==> depth > 0 && CloseFrom(ts, i + 1, 1) == CloseFrom(ts, k, depth)
      {
        if k > i { CloseStep(ts, k, depth); }
        if tokens[k].kind.Open? {
          depth := depth + 1;
        } else if tokens[k].kind.Close? {
          depth := depth - 1;
          if depth == 0 { return; }
        }
        k := k + 1;
      }
      NoClose(ts, depth);
    }

    method FindStop(i: nat) returns (j: nat)
      requires i < |tokens|
      ensures j == i + 1 + StopOffset(tokens[i + 1..])
      ensures i < j <= |tokens| && (j < |tokens| ==> tokens[j].kind.Inline? || tokens[j].kind.Close?)
      ensures forall h :: i < h < j ==> !tokens[h].kind.Inline? && !tokens[h].kind.Close?
    {
      j := i + 1;
      while j < |tokens| && !tokens[j].kind.Inline? && !tokens[j].kind.Close?
        invariant i < j <= |tokens|
        invariant forall h :: i < h < j ==> !tokens[h].kind.Inline? && !tokens[h].kind.Close?
        invariant i + 1 + StopOffset(tokens[i + 1..]) == j + StopOffset(tokens[j..])
      {
        assert tokens[j..][1..] == tokens[j + 1..];
        j := j + 1;
      }
    }

    /** The quote opened at i is an alert exactly when the first inline token or close
        after i is an inline token whose text starts with a marker, and then it is an
        alert of that marker's word. */
    method AlertAt(i: nat) returns (j: nat, m: Option<Match>)
      requires i < |tokens|
      ensures m == AlertAfter(tokens[i + 1..])
      ensures m.Some? ==>
        && i < j < |tokens| && j == i + 1 + StopOffset(tokens[i + 1..])
        && tokens[j].kind.Inline? && Marker(tokens[j].content) == m
      ensures m.Some? ==> m.value.kind < 5
      ensures i < j <= |tokens| && (j < |tokens| ==> tokens[j].kind.Inline? || tokens[j].kind.Close?)
      ensures forall h :: i < h < j ==> !tokens[h].kind.Inline? && !tokens[h].kind.Close?
      ensures m.None? <==> j == |tokens| || tokens[j].kind.Close? || Unmarkable(tokens[j].content)
      ensures m.Some? ==> AlertText(tokens[j].content, KINDS[m.value.kind], m.value.rest)
    {
      j := FindStop(i);
      hide Marker, AlertText, Unmarkable;
      if j >= |tokens| || !tokens[j].kind.Inline? { return j, None; }
      m := Marker(tokens[j].content);
      MarkerExactly(tokens[j].content);
      if m.Some? { MarkerKind(tokens[j].content, 0); }
    }

    /** The writes and the splice replace the quote from i to k by its converted form,
        whose close and successors move one place up, and touch no other token. */
    method ConvertAt(i: nat, j: nat, k: nat, m: Match)
      requires i < j < k < |tokens| && m.kind < 5
      modifies this
      ensures tokens == Spliced(old(tokens), i, j, k, m) && |tokens| == old(|tokens|) + 1
      ensures tokens[k + 2..] == old(tokens)[k + 1..]
      ensures |tokens| == old(|tokens|) + 1 && forall h :: 0 <= h < i ==> tokens[h] == old(tokens)[h]
      ensures forall h :: i < h < old(|tokens|) && h != j && h != k ==> tokens[h + 1] == old(tokens)[h]
      ensures BoxOpening(old(tokens)[i], KINDS[m.kind], tokens[i]) && BoxTitle(tokens[i + 1], KINDS[m.kind])
      ensures BoxText(old(tokens)[j], m.rest, tokens[j + 1]) && tokens[k + 1] == old(tokens)[k].(tag := "div")
      ensures j == i + 1 + StopOffset(old(tokens)[i + 1..k]) ==>
        tokens[..k + 2] == old(tokens)[..i] + Convert(old(tokens)[i], old(tokens)[i + 1..k], old(tokens)[k], m)
    {
      hide Convert, StopOffset, Alerted, Title, BoxOpening, BoxTitle, BoxText, KINDS;
      SplicedShape(tokens, i, j, k, m);
      SplicedAt(tokens, i, j, k, m);
      BoxForms(tokens[i], tokens[j], m.kind, m.rest);
      var inline := tokens[j].(content := m.rest);
      if inline.lead.Some? { inline := inline.(lead := Some(Unmarked(inline.lead.value))); }
      tokens := tokens[j := inline];
      tokens := tokens[i := Alerted(tokens[i], m.kind)];
      tokens := tokens[k := tokens[k].(tag := "div")];
      tokens := tokens[..i + 1] + [Title(m.kind)] + tokens[i + 1..];
    }

    method ConvertQuote(i: nat, j: nat, k: nat, m: Match) returns (next: nat)
      requires i < j < |tokens| && i < k < |tokens| && tokens[i].kind.Open?
      requires j == i + 1 + StopOffset(tokens[i + 1..]) && k == i + 1 + CloseOffset(tokens[i + 1..], 1)
      requires AlertAfter(tokens[i + 1..]) == Some(m)
      modifies this
      ensures |tokens| == old(|tokens|) + 1 && next == k + 2 && Remaining(tokens, next) == old(Remaining(tokens, i))
    {
      hide Convert, StopOffset, CloseOffset, Spliced, AlertAfter, Rewritten, Remaining;
      ghost var was := tokens;
      RewrittenAt(tokens, i, k, m);
      ConvertAt(i, j, k, m);
      next := k + 2;
      ConvertedInPlace(was, i, k, m, tokens, next);
    }

    // The turn at an alert's opening.
    method VisitAlert(i: nat, j: nat, m: Match) returns (next: nat, ok: bool)
      requires i < j < |tokens| && tokens[i].kind.Open?
      requires j == i + 1 + StopOffset(tokens[i + 1..]) && AlertAfter(tokens[i + 1..]) == Some(m)
      modifies this
      ensures ok ==>
        && next <= |tokens| && |tokens| - next < old(|tokens|) - i
        && Remaining(tokens, next) == old(Remaining(tokens, i))
      ensures !ok ==> old(Remaining(tokens, i)).None?
    {
      var k := FindClose(i);
      if k == |tokens| {
        Unclosed(tokens, i);
        return i, false;
      }
      next := ConvertQuote(i, j, k, m);
      ok := true;
    }

    // One turn of the outer loop at index i.
    method Visit(i: nat) returns (next: nat, ok: bool)
      requires i < |tokens|
      modifies this
      ensures ok ==>
        && next <= |tokens| && |tokens| - next < old(|tokens|) - i
        && Remaining(tokens, next) == old(Remaining(tokens, i))
      ensures !ok ==> old(Remaining(tokens, i)).None?
    {
      if !tokens[i].kind.Open? {
        PassOver(tokens, i);
        return i + 1, true;
      }
      var j, m := AlertAt(i);
      if m.None? {
        PassOver(tokens, i);
        return i + 1, true;
      }
      next, ok := VisitAlert(i, j, m.value);
    }

    /** The in-place pass; `ok` is false where the original throws. */
    method DocsAlerts() returns (ok: bool)
      modifies this
      ensures ok <==> Rewritten(old(tokens)).Some?
      ensures ok ==> Some(tokens) == Rewritten(old(tokens))
      ensures forall f :: Proper(f) && Flatten(f) == old(tokens) ==> ok && tokens == Flatten(Boxed(f))
    {
      forall f | Proper(f) && Flatten(f) == tokens ensures Rewritten(tokens) == Some(Flatten(Boxed(f))) {
        assert Flatten(f) + [] == tokens;
        PassIsBoxing(f, []);
        assert Flatten(Boxed(f)) + [] == Flatten(Boxed(f));
      }
      hide Rewritten, Flatten, Proper, Boxed;
      var i: nat := 0;
      assert tokens[0..] == tokens;
      PrependNothing(Rewritten(tokens));
      while i < |tokens|
        invariant i <= |tokens|
        invariant Remaining(tokens, i) == Rewritten(old(tokens))
        decreases |tokens| - i
      {
        i, ok := Visit(i);
        if !ok { return; }
      }
      assert tokens[..i] + [] == tokens;
      return true;
    }
  }

  // ---- The quote tree ----

  // A list of siblings: plain tokens and quotes with a body.
  datatype Forest =
    | Nil
    | Leaf(token: Token, rest: Forest)
    | Quote(open: Token, body: Forest, close: Token, rest: Forest)

  function Flatten(f: Forest): seq<Token> {
    match f
    case Nil => []
    case Leaf(t, rest) => [t] + Flatten(rest)
    case Quote(o, b, c, rest) => [o] + Flatten(b) + [c] + Flatten(rest)
  }

  predicate Proper(f: Forest) {
    match f
    case Nil => true
    case Leaf(t, rest) => !t.kind.Open? && !t.kind.Close? && Proper(rest)
    case Quote(o, b, c, rest) => o.kind.Open? && Proper(b) && c.kind.Close? && Proper(rest)
  }

  // Quotes open before they close and all of them close.
  predicate Nested(ts: seq<Token>, depth: nat) {
    if ts == [] then depth == 0
    else if ts[0].kind.Close? && depth == 0 then false
    else Nested(ts[1..], DepthAfter(ts[0], depth))
  }

  // The first inline token of a quote, if no quote closes before it.
  datatype Stop = Text(content: string) | Blocked | Nothing

  function FirstStop(f: Forest): Stop {
    match f
    case Nil => Nothing
    case Leaf(t, rest) => if t.kind.Inline? then Text(t.content) else FirstStop(rest)
    case Quote(_, b, _, _) => if FirstStop(b).Nothing? then Blocked else FirstStop(b)
  }

  function AlertOf(body: Forest): Option<Match> {
    if FirstStop(body).Text? then Marker(FirstStop(body).content) else None
  }

  // Cut the marker off the first inline token, wherever it is nested.
  function CutMarker(f: Forest, text: string): Forest {
    match f
    case Nil => Nil
    case Leaf(t, rest) => if t.kind.Inline? then Leaf(Cut(t, text), rest) else Leaf(t, CutMarker(rest, text))
    case Quote(o, b, c, rest) => Quote(o, CutMarker(b, text), c, rest)
  }

  lemma AlertKind(body: Forest)
    requires AlertOf(body).Some?
    ensures AlertOf(body).value.kind < 5
  {
    MarkerKind(FirstStop(body).content, 0);
  }

  // An outermost alert becomes a box with a title; its body is not visited.
  function Boxed(f: Forest): Forest {
    match f
    case Nil => Nil
    case Leaf(t, rest) => Leaf(t, Boxed(rest))
    case Quote(o, b, c, rest) =>
      if AlertOf(b).None? then Quote(o, Boxed(b), c, Boxed(rest))
      else
        AlertKind(b);
        var m := AlertOf(b).value;
        Quote(Alerted(o, m.kind), Leaf(Title(m.kind), CutMarker(b, m.rest)), c.(tag := "div"), Boxed(rest))
  }

  // Outermost alerts.
  function Alerts(f: Forest): nat {
    match f
    case Nil => 0
    case Leaf(_, rest) => Alerts(rest)
    case Quote(_, b, _, rest) => (if AlertOf(b).Some? then 1 else Alerts(b)) + Alerts(rest)
  }

  // ---- The flat scans see the tree ----

  lemma StopCons(t: Token, ts: seq<Token>)
    ensures StopOffset([t] + ts) == if t.kind.Inline? || t.kind.Close? then 0 else 1 + StopOffset(ts)
  {
    assert ([t] + ts)[1..] == ts;
  }

  lemma CloseCons(t: Token, ts: seq<Token>, depth: nat)
    requires depth > 0
    ensures var after := DepthAfter(t, depth);
      CloseOffset([t] + ts, depth) == if after == 0 then 0 else 1 + CloseOffset(ts, after)
  {
    assert ([t] + ts)[1..] == ts;
  }

  lemma NestedCons(t: Token, ts: seq<Token>, depth: nat)
    ensures Nested([t] + ts, depth) <==> !(t.kind.Close? && depth == 0) && Nested(ts, DepthAfter(t, depth))
  {
    assert ([t] + ts)[1..] == ts;
  }

  lemma FlattenBefore(f: Forest, tail: seq<Token>)
    ensures match f
      case Nil => Flatten(f) + tail == tail
      case Leaf(t, rest) => Flatten(f) + tail == [t] + (Flatten(rest) + tail)
      case Quote(o, b, c, rest) => Flatten(f) + tail == [o] + (Flatten(b) + ([c] + (Flatten(rest) + tail)))
  {
    match f
    case Nil => assert Flatten(f) + tail == tail;
    case Leaf(t, rest) => Associate([t], Flatten(rest), tail);
    case Quote(o, b, c, rest) =>
      var left, right := [o] + Flatten(b) + [c], Flatten(rest);
      Associate(left, right, tail);
      Associate([o] + Flatten(b), [c], right + tail);
      Associate([o], Flatten(b), [c] + (right + tail));
  }

  lemma {:induction false} StopInForest(f: Forest, tail: seq<Token>)
    requires Proper(f)
    ensures var j, n := StopOffset(Flatten(f) + tail), |Flatten(f)|;
      match FirstStop(f)
      case Text(content) => j < n && Flatten(f)[j].kind.Inline? && Flatten(f)[j].content == content
      case Blocked => j < n && Flatten(f)[j].kind.Close?
      case Nothing => j == n + StopOffset(tail)
  {
    hide StopOffset;
    FlattenBefore(f, tail);
    match f
    case Nil =>
    case Leaf(t, rest) =>
      StopCons(t, Flatten(rest) + tail);
      StopInForest(rest, tail);
    case Quote(o, b, c, rest) =>
      var tail' := [c] + (Flatten(rest) + tail);
      StopCons(o, Flatten(b) + tail');
      StopInForest(b, tail');
      StopCons(c, Flatten(rest) + tail);
  }

  lemma UpdateInside<T>(a: seq<T>, b: seq<T>, c: seq<T>, j: nat, x: T)
    requires j < |b|
    ensures (a + b + c)[|a| + j := x] == a + b[j := x] + c
  {
  }

  // The offset and the tokens of the text that stops the scan.
  lemma StopIsText(f: Forest)
    requires Proper(f) && FirstStop(f).Text?
    ensures StopOffset(Flatten(f)) < |Flatten(f)|
    ensures Flatten(f)[StopOffset(Flatten(f))].kind.Inline?
  {
    StopInForest(f, []);
    assert Flatten(f) + [] == Flatten(f);
  }

  lemma {:induction false} CutInForest(f: Forest, text: string)
    requires Proper(f) && FirstStop(f).Text?
    ensures Proper(CutMarker(f, text))
    ensures StopOffset(Flatten(f)) < |Flatten(f)|
    ensures var j := StopOffset(Flatten(f));
      Flatten(CutMarker(f, text)) == Flatten(f)[j := Cut(Flatten(f)[j], text)]
  {
    StopIsText(f);
    match f
    case Leaf(t, rest) =>
      if !t.kind.Inline? {
        var r := Flatten(rest);
        assert Flatten(f)[1..] == r;
        CutInForest(rest, text);
        var j := StopOffset(r);
        assert Flatten(f)[1 + j] == r[j];
        assert ([t] + r + []) == Flatten(f);
        UpdateInside([t], r, [], j, Cut(r[j], text));
      }
    case Quote(o, b, c, rest) =>
      CutInForest(b, text);
      CutInQuote(f, text);
  }

  lemma QuoteStop(o: Token, b: seq<Token>, tail: seq<Token>)
    requires o.kind.Open? && StopOffset(b) < |b|
    ensures StopOffset([o] + b + tail) == 1 + StopOffset(b) && ([o] + b + tail)[1 + StopOffset(b)] == b[StopOffset(b)]
  {
    assert ([o] + b + tail)[1..] == b + tail;
    StopOffsetPrefix(b, tail);
  }

  lemma CutInQuote(f: Forest, text: string)
    requires Proper(f) && f.Quote? && FirstStop(f.body).Text?
    requires StopOffset(Flatten(f.body)) < |Flatten(f.body)| && StopOffset(Flatten(f)) < |Flatten(f)|
    requires var b, j := Flatten(f.body), StopOffset(Flatten(f.body));
      Flatten(CutMarker(f.body, text)) == b[j := Cut(b[j], text)]
    ensures var j := StopOffset(Flatten(f));
      Flatten(CutMarker(f, text)) == Flatten(f)[j := Cut(Flatten(f)[j], text)]
  {
    hide Flatten, StopOffset, FirstStop;
    var b, tail := Flatten(f.body), [f.close] + Flatten(f.rest);
    var x := Cut(b[StopOffset(b)], text);
    FlattenQuote(f);
    FlattenQuote(CutMarker(f, text));
    QuoteStop(f.open, b, tail);
    UpdateInside([f.open], b, tail, StopOffset(b), x);
  }

  lemma FlattenQuote(f: Forest)
    requires f.Quote?
    ensures Flatten(f) == [f.open] + Flatten(f.body) + ([f.close] + Flatten(f.rest))
  {
  }

  lemma {:induction false} StopOffsetPrefix(a: seq<Token>, b: seq<Token>)
    requires StopOffset(a) < |a|
    ensures StopOffset(a + b) == StopOffset(a)
  {
    assert (a + b)[0] == a[0];
    if !a[0].kind.Inline? && !a[0].kind.Close? {
      assert (a + b)[1..] == a[1..] + b;
      StopOffsetPrefix(a[1..], b);
    }
  }

  // The close scan passes over a balanced stretch.
  lemma {:induction false} CloseSkipsForest(f: Forest, tail: seq<Token>, depth: nat)
    requires Proper(f) && depth > 0
    ensures CloseOffset(Flatten(f) + tail, depth) == |Flatten(f)| + CloseOffset(tail, depth)
  {
    hide CloseOffset;
    FlattenBefore(f, tail);
    match f
    case Nil =>
    case Leaf(t, rest) =>
      CloseCons(t, Flatten(rest) + tail, depth);
      CloseSkipsForest(rest, tail, depth);
    case Quote(o, b, c, rest) =>
      var tail' := [c] + (Flatten(rest) + tail);
      CloseCons(o, Flatten(b) + tail', depth);
      CloseSkipsForest(b, tail', depth + 1);
      CloseCons(c, Flatten(rest) + tail, depth + 1);
      CloseSkipsForest(rest, tail, depth);
  }

  lemma {:induction false} NestedSkipsForest(f: Forest, tail: seq<Token>, depth: nat)
    requires Proper(f)
    ensures Nested(Flatten(f) + tail, depth) == Nested(tail, depth)
  {
    hide Nested;
    FlattenBefore(f, tail);
    match f
    case Nil =>
    case Leaf(t, rest) =>
      NestedCons(t, Flatten(rest) + tail, depth);
      NestedSkipsForest(rest, tail, depth);
    case Quote(o, b, c, rest) =>
      var tail' := [c] + (Flatten(rest) + tail);
      NestedCons(o, Flatten(b) + tail', depth);
      NestedSkipsForest(b, tail', depth + 1);
      NestedCons(c, Flatten(rest) + tail, depth + 1);
      NestedSkipsForest(rest, tail, depth);
  }

  // ---- The pass is the tree transformation ----

  lemma {:induction false} PassIsBoxing(f: Forest, tail: seq<Token>)
    requires Proper(f)
    ensures Rewritten(Flatten(f) + tail) == Prepend(Flatten(Boxed(f)), Rewritten(tail))
    decreases f, 1
  {
    match f
    case Nil =>
      assert Flatten(f) + tail == tail;
      PrependNothing(Rewritten(tail));
    case Leaf(t, rest) =>
      assert (Flatten(f) + tail)[1..] == Flatten(rest) + tail;
      PassIsBoxing(rest, tail);
      PrependTwice([t], Flatten(Boxed(rest)), Rewritten(tail));
    case Quote(o, b, c, rest) =>
      if AlertOf(b).None? { PassesPlainQuote(f, tail); } else { PassConvertsAlert(f, tail); }
  }

  lemma PrependQuote(o: Token, body: seq<Token>, c: Token, after: seq<Token>, rest: Option<seq<Token>>)
    ensures Prepend([o], Prepend(body, Prepend([c], Prepend(after, rest)))) == Prepend([o] + body + [c] + after, rest)
  {
    PrependTwice([c], after, rest);
    PrependTwice(body, [c] + after, rest);
    PrependTwice([o], body + ([c] + after), rest);
    assert [o] + (body + ([c] + after)) == [o] + body + [c] + after;
  }

  lemma {:induction false} PassesPlainQuote(f: Forest, tail: seq<Token>)
    requires Proper(f) && f.Quote? && AlertOf(f.body).None?
    ensures Rewritten(Flatten(f) + tail) == Prepend(Flatten(Boxed(f)), Rewritten(tail))
    decreases f, 0
  {
    var ts, after := Flatten(f) + tail, Flatten(f.rest) + tail;
    var tail' := [f.close] + after;
    assert ts[0] == f.open && ts[1..] == Flatten(f.body) + tail';
    StopInForest(f.body, tail');
    assert AlertAfter(ts[1..]).None?;
    PassIsBoxing(f.body, tail');
    PassIsBoxing(f.rest, tail);
    assert tail'[1..] == after;
    assert Rewritten(tail') == Prepend([f.close], Rewritten(after));
    PrependQuote(f.open, Flatten(Boxed(f.body)), f.close, Flatten(Boxed(f.rest)), Rewritten(tail));
  }

  // The pass over one alert and whatever follows it.
  lemma PassOverAlert(o: Token, b: Forest, c: Token, after: seq<Token>)
    requires Proper(b) && o.kind.Open? && c.kind.Close? && AlertOf(b).Some?
    ensures AlertOf(b).value.kind < 5 && StopOffset(Flatten(b)) < |Flatten(b)|
    ensures Rewritten([o] + (Flatten(b) + ([c] + after))) ==
      Prepend(Convert(o, Flatten(b), c, AlertOf(b).value), Rewritten(after))
  {
    hide Rewritten, Convert, Flatten, StopOffset, CloseOffset, FirstStop, Marker, Prepend;
    var m, body, tail := AlertOf(b).value, Flatten(b), [c] + after;
    var ts := [o] + (body + tail);
    assert ts[1..] == body + tail;
    StopIsText(b);
    StopInForest(b, tail);
    CloseSkipsForest(b, tail, 1);
    CloseCons(c, after, 1);
    RewrittenAlert(ts, |body|, m);
    assert (body + tail)[..|body|] == body && (body + tail)[|body|] == c && (body + tail)[|body| + 1..] == after;
  }

  lemma BoxedAlert(f: Forest)
    requires Proper(f) && f.Quote? && AlertOf(f.body).Some?
    ensures AlertOf(f.body).value.kind < 5 && StopOffset(Flatten(f.body)) < |Flatten(f.body)|
    ensures Flatten(Boxed(f)) ==
      Convert(f.open, Flatten(f.body), f.close, AlertOf(f.body).value) + Flatten(Boxed(f.rest))
  {
    hide FirstStop, Marker, StopOffset, Alerted, Title, CutMarker;
    var m := AlertOf(f.body).value;
    AlertKind(f.body);
    CutInForest(f.body, m.rest);
    var cut, title := CutMarker(f.body, m.rest), Title(m.kind);
    BoxTokens(Alerted(f.open, m.kind), title, cut, f.close.(tag := "div"), Boxed(f.rest));
  }

  lemma BoxTokens(o: Token, title: Token, body: Forest, c: Token, rest: Forest)
    ensures Flatten(Quote(o, Leaf(title, body), c, rest)) == ([o, title] + Flatten(body) + [c]) + Flatten(rest)
  {
    assert [o] + ([title] + Flatten(body)) == [o, title] + Flatten(body);
  }

  lemma {:induction false} PassConvertsAlert(f: Forest, tail: seq<Token>)
    requires Proper(f) && f.Quote? && AlertOf(f.body).Some?
    ensures Rewritten(Flatten(f) + tail) == Prepend(Flatten(Boxed(f)), Rewritten(tail))
    decreases f, 0
  {
    var after := Flatten(f.rest) + tail;
    assert Flatten(f) + tail == [f.open] + (Flatten(f.body) + ([f.close] + after));
    PassOverAlert(f.open, f.body, f.close, after);
    PassIsBoxing(f.rest, tail);
    PrependTwice(Convert(f.open, Flatten(f.body), f.close, AlertOf(f.body).value), Flatten(Boxed(f.rest)),
      Rewritten(tail));
    BoxedAlert(f);
  }

  // ---- Every well-nested list is a tree ----

  function Parse(ts: seq<Token>): (r: (Forest, seq<Token>))
    ensures |r.1| <= |ts|
    decreases |ts|
  {
    if ts == [] || ts[0].kind.Close? then (Nil, ts)
    else if !ts[0].kind.Open? then
      var (rest, left) := Parse(ts[1..]);
      (Leaf(ts[0], rest), left)
    else
      var (body, left) := Parse(ts[1..]);
      if left == [] then (Nil, ts)
      else
        var (rest, left') := Parse(left[1..]);
        (Quote(ts[0], body, left[0], rest), left')
  }

  ghost predicate Parsed(ts: seq<Token>, f: Forest, left: seq<Token>) {
    Proper(f) && Flatten(f) + left == ts && (left == [] || left[0].kind.Close?)
  }

  lemma {:induction false} ParseFlattens(ts: seq<Token>, depth: nat)
    requires Nested(ts, depth)
    ensures Parsed(ts, Parse(ts).0, Parse(ts).1)
    decreases |ts|
  {
    if ts == [] || ts[0].kind.Close? {
      assert [] + ts == ts;
    } else {
      hide Flatten, Nested;
      var depth' := DepthAfter(ts[0], depth);
      NestedTail(ts, depth);
      ParseFlattens(ts[1..], depth');
      var (f, left) := Parse(ts[1..]);
      NestedSkipsForest(f, left, depth');
      if !ts[0].kind.Open? {
        JoinLeaf(ts, f, left);
      } else {
        NestedEnd(left, depth');
        NestedTail(left, depth');
        ParseFlattens(left[1..], depth);
        JoinQuote(ts, f, left, Parse(left[1..]).0, Parse(left[1..]).1);
      }
    }
  }

  lemma NestedTail(ts: seq<Token>, depth: nat)
    requires ts != []
    ensures Nested(ts, depth) <==> !(ts[0].kind.Close? && depth == 0) && Nested(ts[1..], DepthAfter(ts[0], depth))
  {
  }

  lemma NestedEnd(ts: seq<Token>, depth: nat)
    requires Nested(ts, depth) && depth > 0
    ensures ts != []
  {
  }

  lemma JoinLeaf(ts: seq<Token>, rest: Forest, left: seq<Token>)
    requires ts != [] && ts[0].kind != Open && ts[0].kind != Close && Parsed(ts[1..], rest, left)
    ensures Parsed(ts, Leaf(ts[0], rest), left)
  {
    hide Flatten;
    FlattenBefore(Leaf(ts[0], rest), left);
    assert ts == [ts[0]] + ts[1..];
  }

  lemma JoinQuote(ts: seq<Token>, body: Forest, left: seq<Token>, rest: Forest, left': seq<Token>)
    requires ts != [] && ts[0].kind.Open? && left != []
    requires Parsed(ts[1..], body, left) && Parsed(left[1..], rest, left')
    ensures Parsed(ts, Quote(ts[0], body, left[0], rest), left')
  {
    hide Flatten;
    FlattenBefore(Quote(ts[0], body, left[0], rest), left');
    assert left == [left[0]] + left[1..];
    assert ts == [ts[0]] + ts[1..];
  }

  // ---- Main results ----

  /** On every well-nested list the rule finishes without a missing token, and its
      result is the list of the boxed tree: well nested and longer by one title
      per outermost alert. */
  lemma AlertPass(ts: seq<Token>) returns (f: Forest)
    requires Nested(ts, 0)
    ensures Proper(f) && Flatten(f) == ts
    ensures Rewritten(ts) == Some(Flatten(Boxed(f)))
    ensures Nested(Flatten(Boxed(f)), 0)
    ensures |Flatten(Boxed(f))| == |ts| + Alerts(f)
  {
    f := Parse(ts).0;
    ParseFlattens(ts, 0);
    NestedSkipsForest(f, Parse(ts).1, 0);
    assert ts + [] == ts && Flatten(f) + [] == ts;
    PassIsBoxing(f, []);
    BoxedShape(f);
    var out := Flatten(Boxed(f));
    assert out + [] == out;
    NestedSkipsForest(Boxed(f), [], 0);
  }

  lemma {:induction false} BoxedShape(f: Forest)
    requires Proper(f)
    ensures Proper(Boxed(f)) && |Flatten(Boxed(f))| == |Flatten(f)| + Alerts(f)
  {
    match f
    case Nil =>
    case Leaf(_, rest) => BoxedShape(rest);
    case Quote(o, b, c, rest) =>
      BoxedShape(rest);
      BoxedShape(b);
      if AlertOf(b).Some? {
        AlertKind(b);
        CutInForest(b, AlertOf(b).value.rest);
      }
  }

  // The opening and closing tokens of all quotes, in document order.
  function Quotes(f: Forest): seq<(Token, Token)> {
    match f
    case Nil => []
    case Leaf(_, rest) => Quotes(rest)
    case Quote(o, b, c, rest) => [(o, c)] + Quotes(b) + Quotes(rest)
  }

  // The word of the marker a text starts with.
  function WordOf(content: string): Option<string> {
    if "[!NOTE]" <= content then Some("NOTE")
    else if "[!TIP]" <= content then Some("TIP")
    else if "[!IMPORTANT]" <= content then Some("IMPORTANT")
    else if "[!WARNING]" <= content then Some("WARNING")
    else if "[!CAUTION]" <= content then Some("CAUTION")
    else None
  }

  lemma WordExactly(content: string)
    ensures WordOf(content).None? <==> Unmarkable(content)
    ensures WordOf(content).Some? ==> IsWord(WordOf(content).value) && "[!" + WordOf(content).value + "]" <= content
    ensures forall w, rest :: AlertText(content, w, rest) ==> WordOf(content) == Some(w)
  {
    assert "[!" + "NOTE" + "]" == "[!NOTE]" && "[!" + "TIP" + "]" == "[!TIP]";
    assert "[!" + "IMPORTANT" + "]" == "[!IMPORTANT]" && "[!" + "WARNING" + "]" == "[!WARNING]";
    assert "[!" + "CAUTION" + "]" == "[!CAUTION]";
    forall w | IsWord(w) && "[!" + w + "]" <= content ensures WordOf(content) == Some(w) {
      assert content[2] == ("[!" + w + "]")[2] == w[0];
    }
  }

  // For each quote, the word of the alert it is converted to: an outermost quote whose
  // first text has a marker is, a quote inside it is not.
  function Verdicts(f: Forest): seq<Option<string>> {
    match f
    case Nil => []
    case Leaf(_, rest) => Verdicts(rest)
    case Quote(_, b, _, rest) =>
      var text := FirstStop(b);
      (if text.Text? && WordOf(text.content).Some? then [WordOf(text.content)] + seq(|Quotes(b)|, _ => None)
       else [None] + Verdicts(b))
      + Verdicts(rest)
  }

  predicate PairOk(verdict: Option<string>, q: (Token, Token), q': (Token, Token)) {
    match verdict
    case None => q' == q
    case Some(w) => BoxOpening(q.0, w, q'.0) && q'.1 == q.1.(tag := "div")
  }

  predicate PairsOk(verdicts: seq<Option<string>>, qs: seq<(Token, Token)>, qs': seq<(Token, Token)>) {
    && |verdicts| == |qs| == |qs'|
    && forall i :: 0 <= i < |qs| ==> PairOk(verdicts[i], qs[i], qs'[i])
  }

  lemma AlertWord(b: Forest)
    ensures AlertOf(b).Some? <==> FirstStop(b).Text? && WordOf(FirstStop(b).content).Some?
    ensures AlertOf(b).Some? ==>
      && AlertOf(b).value.kind < 5 && WordOf(FirstStop(b).content) == Some(KINDS[AlertOf(b).value.kind])
      && AlertText(FirstStop(b).content, KINDS[AlertOf(b).value.kind], AlertOf(b).value.rest)
  {
    hide Marker, AlertText, Unmarkable, WordOf;
    assert AlertOf(b).Some? ==> FirstStop(b).Text?;
    if FirstStop(b).Text? {
      MarkerExactly(FirstStop(b).content);
      WordExactly(FirstStop(b).content);
      if AlertOf(b).Some? {
        AlertKind(b);
        assert AlertText(FirstStop(b).content, KINDS[AlertOf(b).value.kind], AlertOf(b).value.rest);
      }
    }
  }

  /** A quote becomes a box exactly when its first text has a marker: a div of the word's
      classes around the word's title and the body, from whose first text the marker is
      cut.  Any other quote stays and its body is searched. */
  lemma QuoteBecomesBox(f: Forest)
    requires Proper(f) && f.Quote?
    ensures var b, out := f.body, Boxed(f);
      out.Quote? && out.rest == Boxed(f.rest) &&
      match (if FirstStop(b).Text? then WordOf(FirstStop(b).content) else None)
      case None => out == Quote(f.open, Boxed(b), f.close, Boxed(f.rest))
      case Some(w) =>
        && BoxOpening(f.open, w, out.open) && out.close == f.close.(tag := "div")
        && out.body.Leaf? && BoxTitle(out.body.token, w) && BoxBody(b, w, out.body.rest)
  {
    AlertWord(f.body);
    hide FirstStop, WordOf, AlertText, Marker, BoxOpening, BoxTitle, BoxText, BoxBody, Alerted, Title, Cut, KINDS,
      Proper;
    if AlertOf(f.body).Some? {
      var m := AlertOf(f.body).value;
      BoxForms(f.open, f.open, m.kind, m.rest);
      CutIsBoxBody(f.body, m);
    }
  }

  // The body's tokens but for its first text, which loses its marker of this word.
  ghost predicate BoxBody(b: Forest, w: string, b': Forest) {
    var ts, ts', j := Flatten(b), Flatten(b'), StopOffset(Flatten(b));
    && FirstStop(b).Text? && |ts'| == |ts| && j < |ts| && ts[j].content == FirstStop(b).content
    && (forall h :: 0 <= h < |ts| && h != j ==> ts'[h] == ts[h])
    && exists rest :: AlertText(ts[j].content, w, rest) && BoxText(ts[j], rest, ts'[j])
  }

  lemma CutIsBoxBody(b: Forest, m: Match)
    requires Proper(b) && AlertOf(b) == Some(m) && m.kind < 5
    ensures BoxBody(b, KINDS[m.kind], CutMarker(b, m.rest))
  {
    AlertWord(b);
    CutInForest(b, m.rest);
    StopInForest(b, []);
    assert Flatten(b) + [] == Flatten(b);
    var t := Flatten(b)[StopOffset(Flatten(b))];
    BoxForms(t, t, m.kind, m.rest);
    hide FirstStop, Flatten, StopOffset, CutMarker, WordOf, AlertText, Marker, BoxText, Cut, KINDS, AlertOf;
  }

  lemma PairsConcat(v: seq<Option<string>>, a: seq<(Token, Token)>, a': seq<(Token, Token)>,
                    w: seq<Option<string>>, b: seq<(Token, Token)>, b': seq<(Token, Token)>)
    requires PairsOk(v, a, a') && PairsOk(w, b, b')
    ensures PairsOk(v + w, a + b, a' + b')
  {
  }

  /** The rule retags openings and closes in matched pairs, exactly for the
      outermost alerts; every other quote, in particular every quote inside a
      converted one, keeps both its tokens. */
  lemma {:induction false} RetagsMatchedPairs(f: Forest)
    requires Proper(f)
    ensures PairsOk(Verdicts(f), Quotes(f), Quotes(Boxed(f)))
  {
    match f
    case Nil =>
    case Leaf(_, rest) => RetagsMatchedPairs(rest);
    case Quote(o, b, c, rest) =>
      RetagsMatchedPairs(rest);
      var qs := Quotes(b);
      AlertWord(b);
      hide WordOf, AlertText, Marker, BoxOpening, Alerted, Title;
      if AlertOf(b).None? {
        RetagsMatchedPairs(b);
        PairsConcat([None], [(o, c)], [(o, c)], Verdicts(b), qs, Quotes(Boxed(b)));
        PairsConcat([None] + Verdicts(b), [(o, c)] + qs, [(o, c)] + Quotes(Boxed(b)), Verdicts(rest), Quotes(rest),
          Quotes(Boxed(rest)));
      } else {
        AlertKind(b);
        var m := AlertOf(b).value;
        CutKeepsQuotes(b, m.rest);
        BoxForms(o, o, m.kind, m.rest);
        var v, q, kept := [Some(KINDS[m.kind])], [(Alerted(o, m.kind), c.(tag := "div"))], seq(|qs|, _ => None);
        PairsConcat(v, [(o, c)], q, kept, qs, qs);
        PairsConcat(v + kept, [(o, c)] + qs, q + qs, Verdicts(rest), Quotes(rest), Quotes(Boxed(rest)));
      }
  }

  lemma {:induction false} CutKeepsQuotes(f: Forest, text: string)
    ensures Quotes(CutMarker(f, text)) == Quotes(f)
  {
    match f
    case Nil =>
    case Leaf(_, rest) => CutKeepsQuotes(rest, text);
    case Quote(_, b, _, _) => CutKeepsQuotes(b, text);
  }
}
