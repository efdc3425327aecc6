/** LinkifiedText: split a text around the URLs the pattern
    `(https?:\/\/[^\s]+|www\.[^\s]+)` finds, render each URL as a link whose target
    has a protocol, and render each plain part as its lines with a break between them.
    The regular expression is re-expressed as a scanner that tries a match at every position. */
module Linkify {
  import opened Wrappers
  import opened Text

  /** Does `s` contain `p` at position `i`? */
  predicate HasAt(s: string, i: nat, p: string) {
    i + |p| <= |s| && s[i..i + |p|] == p
  }

  /** End of the run of non-whitespace characters that starts at `i`. */
  function RunEnd(s: string, i: nat): (e: nat)
    requires i <= |s|
    ensures i <= e <= |s|
    ensures forall k :: i <= k < e ==> !IsSpace(s[k])
    ensures e == |s| || IsSpace(s[e])
    decreases |s| - i
  {
    if i == |s| || IsSpace(s[i]) then i else RunEnd(s, i + 1)
  }

  /** Length of the literal part of the pattern that matches at `i`, if some alternative
      matches there: `https://` (the greedy `s?` is tried first), then `http://`, then `www.`,
      each followed by at least one non-whitespace character for `[^\s]+`. */
  function PrefixAt(s: string, i: nat): (r: Option<nat>)
    ensures r.Some? ==> 4 <= r.value && i + r.value < |s| && !IsSpace(s[i + r.value])
  {
    if HasAt(s, i, "https://") && i + 8 < |s| && !IsSpace(s[i + 8]) then Some(8)
    else if HasAt(s, i, "http://") && i + 7 < |s| && !IsSpace(s[i + 7]) then Some(7)
    else if HasAt(s, i, "www.") && i + 4 < |s| && !IsSpace(s[i + 4]) then Some(4)
    else None
  }

  /** End of the match of the pattern anchored at `i`: the greedy `[^\s]+` runs to the
      end of the non-whitespace run. */
  function MatchAt(s: string, i: nat): (r: Option<nat>)
    ensures r.Some? ==> i < r.value <= |s|
    ensures r.Some? ==> forall k :: i <= k < r.value ==> !IsSpace(s[k])
    ensures r.Some? ==> r.value == |s| || IsSpace(s[r.value])
  {
    var n := PrefixAt(s, i);
    if n.None? then None
    else
      PrefixHasNoSpace(s, i);
      Some(RunEnd(s, i + n.value))
  }

  /** The literal part of a match has no whitespace. */
  lemma PrefixHasNoSpace(s: string, i: nat)
    requires PrefixAt(s, i).Some?
    ensures forall k :: i <= k < i + PrefixAt(s, i).value ==> !IsSpace(s[k])
  {
    var n := PrefixAt(s, i).value;
    var lit := if n == 8 then "https://" else if n == 7 then "http://" else "www.";
    assert s[i..i + n] == lit;
    forall k | i <= k < i + n ensures !IsSpace(s[k]) {
      assert s[k] == lit[k - i];
    }
  }

  /** `part.match(urlRegex)` is truthy: the pattern matches somewhere in `s`. */
  predicate HasMatch(s: string) {
    exists i :: 0 <= i < |s| && MatchAt(s, i).Some?
  }

  /** The scanner behind `text.split(urlRegex)`: `p` is where the current plain part
      began, `q` the next position to try. With a capturing group, `split` keeps each
      match as a part of its own, between the plain parts around it. */
  function SplitFrom(s: string, p: nat, q: nat): (parts: seq<string>)
    requires p <= q <= |s|
    decreases |s| - q
  {
    if q == |s| then [s[p..]]
    else
      var m := MatchAt(s, q);
      if m.Some? then [s[p..q], s[q..m.value]] + SplitFrom(s, m.value, m.value)
      else SplitFrom(s, p, q + 1)
  }

  /** `text.split(urlRegex)`. */
  function Split(s: string): seq<string> {
    SplitFrom(s, 0, 0)
  }

  function Concat(parts: seq<string>): string {
    if parts == [] then [] else parts[0] + Concat(parts[1..])
  }

  lemma {:induction false} ConcatAppend(a: seq<string>, b: seq<string>)
    ensures Concat(a + b) == Concat(a) + Concat(b)
  {
    if a != [] {
      ConcatAppend(a[1..], b);
      assert (a + b)[1..] == a[1..] + b;
    } else {
      assert a + b == b;
    }
  }

  lemma SliceSplit(s: string, p: nat, q: nat, e: nat)
    requires p <= q <= e <= |s|
    ensures s[p..] == s[p..q] + s[q..e] + s[e..]
  {
  }

  lemma ConcatPair(a: string, b: string, rest: seq<string>)
    ensures Concat([a, b] + rest) == a + b + Concat(rest)
  {
    ConcatAppend([a, b], rest);
    assert Concat([b]) == b + Concat([]);
  }

  lemma {:induction false} SplitFromConcat(s: string, p: nat, q: nat)
    requires p <= q <= |s|
    ensures Concat(SplitFrom(s, p, q)) == s[p..]
    decreases |s| - q
  {
    if q < |s| {
      var m := MatchAt(s, q);
      if m.Some? {
        var e := m.value;
        var rest := SplitFrom(s, e, e);
        assert SplitFrom(s, p, q) == [s[p..q], s[q..e]] + rest;
        SplitFromConcat(s, e, e);
        ConcatPair(s[p..q], s[q..e], rest);
        SliceSplit(s, p, q, e);
      } else {
        SplitFromConcat(s, p, q + 1);
      }
    }
  }

  /** Joining the parts in order gives back the text: the capturing group keeps every
      matched URL, so `split` loses nothing. */
  lemma SplitConcat(s: string)
    ensures Concat(Split(s)) == s
  {
    SplitFromConcat(s, 0, 0);
  }

  /** A URL as the pattern matches it whole: a scheme or `www.`, at least one more
      character, and no whitespace. */
  predicate IsUrl(u: string) {
    (StartsWith(u, "http://") || StartsWith(u, "https://") || StartsWith(u, "www."))
    && (StartsWith(u, "https://") ==> |u| > 8)
    && (StartsWith(u, "http://") ==> |u| > 7)
    && (StartsWith(u, "www.") ==> |u| > 4)
    && forall k :: 0 <= k < |u| ==> !IsSpace(u[k])
  }

  /** A match found in a slice is a match in the whole text at the same place. */
  lemma PrefixInSlice(s: string, a: nat, b: nat, k: nat)
    requires a <= b <= |s| && k < b - a
    ensures PrefixAt(s[a..b], k).Some? ==> PrefixAt(s, a + k).Some?
  {
    var t := s[a..b];
    if PrefixAt(t, k).Some? {
      var n := PrefixAt(t, k).value;
      assert k + n < |t|;
      var inWhole, inSlice := s[a + k..a + k + n], t[k..k + n];
      forall m | 0 <= m < n ensures inWhole[m] == inSlice[m] {
        assert t[k + m] == s[a + k + m];
      }
      assert inWhole == inSlice;
      assert t[k + n] == s[a + k + n];
    }
  }

  /** A slice with no match starting inside it has no match of its own. */
  lemma NoMatchInSlice(s: string, a: nat, b: nat)
    requires a <= b <= |s|
    requires forall k :: a <= k < b ==> MatchAt(s, k).None?
    ensures !HasMatch(s[a..b])
  {
    forall j | 0 <= j < b - a ensures MatchAt(s[a..b], j).None? {
      PrefixInSlice(s, a, b, j);
      assert MatchAt(s, a + j).None?;
    }
  }

  /** The text a match covers is itself a URL, matched from its first character. */
  lemma MatchIsUrl(s: string, q: nat)
    requires q < |s| && MatchAt(s, q).Some?
    ensures IsUrl(s[q..MatchAt(s, q).value])
    ensures MatchAt(s[q..MatchAt(s, q).value], 0).Some?
  {
    var e := MatchAt(s, q).value;
    var u := s[q..e];
    var n := PrefixAt(s, q).value;
    assert u[..n] == s[q..q + n];
    assert u[n] == s[q + n];
    assert forall k :: 0 <= k < |u| ==> u[k] == s[q + k];
    if n == 8 {
      assert u[..8] == "https://";
      assert !StartsWith(u, "http://") by { assert u[4] == 's'; }
      assert !StartsWith(u, "www.") by { assert u[0] == 'h'; }
    } else if n == 7 {
      assert u[..7] == "http://";
      assert !StartsWith(u, "https://") by { assert u[4] == ':'; }
      assert !StartsWith(u, "www.") by { assert u[0] == 'h'; }
    } else {
      assert u[..4] == "www.";
      assert !StartsWith(u, "https://") && !StartsWith(u, "http://") by { assert u[0] == 'w'; }
    }
    assert HasAt(u, 0, u[..n]);
  }

  /** Plain text, URL, plain text, ..., plain text. */
  predicate Alternating(parts: seq<string>) {
    |parts| % 2 == 1
    && forall i :: 0 <= i < |parts| ==>
         if i % 2 == 0 then !HasMatch(parts[i]) else IsUrl(parts[i]) && HasMatch(parts[i])
  }

  lemma AlternatingCons(plain: string, url: string, rest: seq<string>)
    requires !HasMatch(plain) && IsUrl(url) && HasMatch(url) && Alternating(rest)
    ensures Alternating([plain, url] + rest)
  {
    var parts := [plain, url] + rest;
    forall i | 2 <= i < |parts| ensures parts[i] == rest[i - 2] {
    }
  }

  /** What the scanner guarantees from position `q` on, given that nothing matched in
      `[p, q)`. */
  lemma {:induction false} SplitFromShape(s: string, p: nat, q: nat)
    requires p <= q <= |s|
    requires forall k :: p <= k < q ==> MatchAt(s, k).None?
    ensures Alternating(SplitFrom(s, p, q))
    decreases |s| - q
  {
    if q == |s| {
      NoMatchInSlice(s, p, |s|);
      assert s[p..|s|] == s[p..];
    } else {
      var m := MatchAt(s, q);
      if m.Some? {
        var e := m.value;
        assert SplitFrom(s, p, q) == [s[p..q], s[q..e]] + SplitFrom(s, e, e);
        SplitFromShape(s, e, e);
        NoMatchInSlice(s, p, q);
        MatchIsUrl(s, q);
        assert HasMatch(s[q..e]) by { assert MatchAt(s[q..e], 0).Some?; }
        AlternatingCons(s[p..q], s[q..e], SplitFrom(s, e, e));
      } else {
        SplitFromShape(s, p, q + 1);
      }
    }
  }

  /** The parts alternate: even positions are plain text in which the pattern matches
      nowhere, odd positions are URLs; so `part.match(urlRegex)` classifies every part
      by its position. */
  lemma SplitShape(s: string)
    ensures |Split(s)| % 2 == 1
    ensures forall i :: 0 <= i < |Split(s)| ==> (HasMatch(Split(s)[i]) <==> i % 2 == 1)
    ensures forall i :: 0 <= i < |Split(s)| && i % 2 == 1 ==> IsUrl(Split(s)[i])
  {
    SplitFromShape(s, 0, 0);
  }

  lemma {:induction false} SplitFromNoMatch(s: string, p: nat, q: nat)
    requires p <= q <= |s|
    requires forall k :: q <= k < |s| ==> MatchAt(s, k).None?
    ensures SplitFrom(s, p, q) == [s[p..]]
    decreases |s| - q
  {
    if q < |s| {
      SplitFromNoMatch(s, p, q + 1);
    }
  }

  /** A text in which the pattern matches nowhere is a single plain part, the whole text. */
  lemma NoUrlSinglePart(s: string)
    requires !HasMatch(s)
    ensures Split(s) == [s]
  {
    SplitFromNoMatch(s, 0, 0);
  }

  /** `part.startsWith('http') ? part : \`https://${part}\``. */
  function Href(part: string): (h: string)
    ensures StartsWith(h, "http")
  {
    if StartsWith(part, "http") then part else "https://" + part
  }

  /** Every link target of a URL part carries a protocol: the URL itself when it has one,
      otherwise `https://` in front of its `www.`. */
  lemma HrefHasProtocol(u: string)
    requires IsUrl(u)
    ensures StartsWith(Href(u), "http://") || StartsWith(Href(u), "https://")
    ensures StartsWith(u, "www.") ==> Href(u) == "https://" + u
    ensures !StartsWith(u, "www.") ==> Href(u) == u
  {
    if StartsWith(u, "www.") {
      assert u[0] == 'w';
      assert !StartsWith(u, "http");
      assert ("https://" + u)[..8] == "https://";
    } else {
      assert u[..4] == "http";
    }
  }

  /** `part.split('\n')`: the text between newlines, with an empty line after a trailing newline. */
  function Lines(s: string): (lines: seq<string>)
    ensures |lines| >= 1
    ensures forall i :: 0 <= i < |lines| ==> '\n' !in lines[i]
  {
    if s == [] then [[]]
    else
      var rest := Lines(s[1..]);
      if s[0] == '\n' then [[]] + rest else [[s[0]] + rest[0]] + rest[1..]
  }

  function CountNewlines(s: string): nat {
    if s == [] then 0 else (if s[0] == '\n' then 1 else 0) + CountNewlines(s[1..])
  }

  /** What the component renders: text, a `<br />`, or an `<a>` with its target and its visible text. */
  datatype Node = Plain(text: string) | Break | Anchor(href: string, caption: string)

  /** One `{line}` per line, followed by `<br />` unless it is the last line. */
  function LineNodes(lines: seq<string>): (r: seq<Node>)
    requires |lines| >= 1
    ensures |r| == 2 * |lines| - 1
    ensures forall i :: 0 <= i < |r| ==> (r[i] == Break <==> i % 2 == 1)
    ensures r[|r| - 1] == Plain(lines[|lines| - 1])
    ensures forall i :: 0 <= i < |r| ==> !r[i].Anchor?
  {
    if |lines| == 1 then [Plain(lines[0])] else [Plain(lines[0]), Break] + LineNodes(lines[1..])
  }

  /** One part: a link when the pattern matches in it, otherwise its lines. */
  function RenderPart(part: string): seq<Node> {
    if HasMatch(part) then [Anchor(Href(part), part)] else LineNodes(Lines(part))
  }

  function RenderParts(parts: seq<string>): seq<Node> {
    if parts == [] then [] else RenderPart(parts[0]) + RenderParts(parts[1..])
  }

  /** `LinkifiedText({text})`. */
  function Render(text: string): seq<Node> {
    RenderParts(Split(text))
  }

  /** The characters a reader sees: a link shows its matched text, a break is a newline. */
  function Visible(nodes: seq<Node>): string {
    if nodes == [] then []
    else
      (match nodes[0]
       case Plain(t) => t
       case Break => "\n"
       case Anchor(_, caption) => caption)
      + Visible(nodes[1..])
  }

  lemma {:induction false} VisibleAppend(a: seq<Node>, b: seq<Node>)
    ensures Visible(a + b) == Visible(a) + Visible(b)
  {
    if a != [] {
      VisibleAppend(a[1..], b);
      assert (a + b)[1..] == a[1..] + b;
    } else {
      assert a + b == b;
    }
  }

  function JoinLines(lines: seq<string>): string
    requires |lines| >= 1
  {
    if |lines| == 1 then lines[0] else lines[0] + "\n" + JoinLines(lines[1..])
  }

  lemma {:induction false} LinesJoin(s: string)
    ensures JoinLines(Lines(s)) == s
    ensures |Lines(s)| == CountNewlines(s) + 1
  {
    if s != [] {
      LinesJoin(s[1..]);
      var rest := Lines(s[1..]);
      if s[0] == '\n' {
        assert Lines(s)[1..] == rest;
      } else {
        var ls := Lines(s);
        if |rest| > 1 {
          assert ls[1..] == rest[1..];
          assert JoinLines(ls) == [s[0]] + rest[0] + "\n" + JoinLines(rest[1..]);
        }
        assert JoinLines(ls) == [s[0]] + JoinLines(rest);
      }
    }
  }

  lemma {:induction false} LineNodesVisible(lines: seq<string>)
    requires |lines| >= 1
    ensures Visible(LineNodes(lines)) == JoinLines(lines)
  {
    if |lines| > 1 {
      LineNodesVisible(lines[1..]);
      VisibleAppend([Plain(lines[0]), Break], LineNodes(lines[1..]));
    }
  }

  /** A plain part renders as its lines with exactly one break between consecutive lines:
      as many breaks as the part has newlines, none after the last line, and the text
      reads back unchanged. */
  lemma PlainPartRendering(part: string)
    requires !HasMatch(part)
    ensures |RenderPart(part)| == 2 * CountNewlines(part) + 1
    ensures forall i :: 0 <= i < |RenderPart(part)| ==> (RenderPart(part)[i] == Break <==> i % 2 == 1)
    ensures RenderPart(part)[|RenderPart(part)| - 1].Plain?
    ensures Visible(RenderPart(part)) == part
  {
    LinesJoin(part);
    LineNodesVisible(Lines(part));
  }

  /** A URL part renders as one link whose visible text is the part unchanged and whose
      target has a protocol. */
  lemma UrlPartRendering(part: string)
    requires IsUrl(part) && HasMatch(part)
    ensures RenderPart(part) == [Anchor(Href(part), part)]
    ensures StartsWith(Href(part), "http://") || StartsWith(Href(part), "https://")
  {
    HrefHasProtocol(part);
  }

  lemma {:induction false} RenderPartsVisible(parts: seq<string>)
    requires forall i :: 0 <= i < |parts| ==> !HasMatch(parts[i]) || IsUrl(parts[i])
    ensures Visible(RenderParts(parts)) == Concat(parts)
  {
    if parts != [] {
      RenderPartsVisible(parts[1..]);
      VisibleAppend(RenderPart(parts[0]), RenderParts(parts[1..]));
      if !HasMatch(parts[0]) {
        PlainPartRendering(parts[0]);
      }
    }
  }

  /** The rendered text shows exactly the input text: link texts, line texts and breaks
      read back as the original characters in order. */
  lemma RenderLossless(text: string)
    ensures Visible(Render(text)) == text
  {
    SplitShape(text);
    var parts := Split(text);
    forall i | 0 <= i < |parts| ensures !HasMatch(parts[i]) || IsUrl(parts[i]) {
    }
    RenderPartsVisible(parts);
    SplitConcat(text);
  }

  lemma {:induction false} RenderPartsLinks(parts: seq<string>, n: Node)
    requires forall i :: 0 <= i < |parts| ==> !HasMatch(parts[i]) || IsUrl(parts[i])
    requires n in RenderParts(parts) && n.Anchor?
    ensures IsUrl(n.caption) && n.href == Href(n.caption)
    ensures StartsWith(n.href, "http://") || StartsWith(n.href, "https://")
  {
    var head, tail := RenderPart(parts[0]), RenderParts(parts[1..]);
    assert RenderParts(parts) == head + tail;
    if n in head {
      assert HasMatch(parts[0]);
      HrefHasProtocol(parts[0]);
    } else {
      RenderPartsLinks(parts[1..], n);
    }
  }

  /** Every link of the rendered text shows a whole URL and points to an `http://` or
      `https://` target derived from it. */
  lemma RenderLinks(text: string, n: Node)
    requires n in Render(text) && n.Anchor?
    ensures IsUrl(n.caption) && n.href == Href(n.caption)
    ensures StartsWith(n.href, "http://") || StartsWith(n.href, "https://")
  {
    SplitShape(text);
    RenderPartsLinks(Split(text), n);
  }
}
