/**
 * The rules of inline markdown.  The renderer takes code spans out of the text, leaves numbered
 * placeholders, and lets the link and emphasis rules loose on the rest.  The reference has no
 * placeholders: there a code span is one opaque symbol.  The rules do the same to both.
 */
module InlineRules {
  import opened Text

  const NUL: char := '\0'

  // ----- escaping -----

  function EscapeChar(c: char): string {
    match c
    case '&' => "&amp;"
    case '<' => "&lt;"
    case '>' => "&gt;"
    case '"' => "&#34;"
    case '\'' => "&#39;"
    case _ => [c]
  }

  /** html.EscapeString */
  function Escape(s: string): string {
    if s == "" then "" else EscapeChar(s[0]) + Escape(s[1..])
  }

  lemma {:induction false} EscapeKeepsOut(s: string)
    requires NUL !in s
    ensures NUL !in Escape(s)
  {
    if s != "" {
      EscapeKeepsOut(s[1..]);
    }
  }

  // ----- searching in text, be it of characters or of atoms -----

  /** A character of the text, or the code span with a number. */
  datatype Atom = Ch(c: char) | Span(k: nat)

  datatype Alphabet<!A> = Alphabet(read: A -> char, write: char -> A)

  const PLAIN: Alphabet<char> := Alphabet((c: char) => c, (c: char) => c)

  /** A code span reads like a character that no rule mentions. */
  const ATOMS: Alphabet<Atom> := Alphabet((a: Atom) => if a.Ch? then a.c else NUL, (c: char) => Ch(c))

  function Written<A>(al: Alphabet<A>, s: string): seq<A> {
    if s == "" then [] else [al.write(s[0])] + Written(al, s[1..])
  }

  /** The length of the longest prefix without any of the characters. */
  function Run<A>(al: Alphabet<A>, s: seq<A>, stops: string): (n: nat)
    ensures n <= |s|
  {
    if s == [] || al.read(s[0]) in stops then 0 else 1 + Run(al, s[1..], stops)
  }

  /** The text behind a literal that it starts with. */
  function Behind<A>(al: Alphabet<A>, s: seq<A>, literal: string): (rest: Option<seq<A>>)
    ensures rest.Some? ==> |rest.value| + |literal| == |s|
    decreases |literal|
  {
    if literal == "" then Some(s)
    else if s != [] && al.read(s[0]) == literal[0] then Behind(al, s[1..], literal[1..])
    else None
  }

  datatype Cut<A> = Cut(body: seq<A>, rest: seq<A>)

  /**
   * The regular expression open([^stops]+)close at the start of the text.  In every use here close
   * starts with one of the stops, so there is nothing to backtrack to.
   */
  function Delimited<A>(al: Alphabet<A>, s: seq<A>, open: string, stops: string, close: string): (cut: Option<Cut<A>>)
    ensures cut.Some? ==> cut.value.body != [] && |cut.value.rest| < |s|
  {
    match Behind(al, s, open)
    case None => None
    case Some(t) =>
      var n := Run(al, t, stops);
      if n == 0 then None
      else
        match Behind(al, t[n..], close)
        case None => None
        case Some(rest) => Some(Cut(t[..n], rest))
  }

  lemma {:induction false} BehindPrefix(s: string, literal: string)
    ensures Behind(PLAIN, s, literal) == if literal <= s then Some(s[|literal|..]) else None
    decreases |literal|
  {
    if literal != "" && s != "" && s[0] == literal[0] {
      BehindPrefix(s[1..], literal[1..]);
      assert literal <= s <==> literal[1..] <= s[1..];
    }
  }

  // ----- code spans -----

  function Placeholder(k: nat): string {
    [NUL] + Decimal(k) + [NUL]
  }

  function Spelling(a: Atom): string {
    match a
    case Ch(c) => [c]
    case Span(k) => Placeholder(k)
  }

  /** The string the renderer has where the reference has atoms. */
  function Spelled(a: seq<Atom>): string {
    if a == [] then "" else Spelling(a[0]) + Spelled(a[1..])
  }

  /** The code span that s starts with. */
  function CodeAt(s: string): Option<Cut<char>> {
    Delimited(PLAIN, s, "`", "`", "`")
  }

  function CodeSpan(content: string): string {
    "<code>" + content + "</code>"
  }

  /** The text with every code span as one symbol, numbered from k. */
  function Extracted(s: string, k: nat): seq<Atom>
    decreases |s|
  {
    if s == "" then []
    else
      match CodeAt(s)
      case Some(cut) => [Span(k)] + Extracted(cut.rest, k + 1)
      case None => [Ch(s[0])] + Extracted(s[1..], k)
  }

  function CodeSpans(s: string): seq<string>
    decreases |s|
  {
    if s == "" then []
    else
      match CodeAt(s)
      case Some(cut) => [CodeSpan(cut.body)] + CodeSpans(cut.rest)
      case None => CodeSpans(s[1..])
  }

  // ----- the rules for links, bold and emphasis -----

  /** What \s means in a Go regular expression. */
  const SPACE: string := "\t\n\U{0C}\r "

  predicate StartsLower<A>(al: Alphabet<A>, s: seq<A>, prefix: string)
    decreases |prefix|
  {
    || prefix == ""
    || (s != [] && Lower(al.read(s[0])) == prefix[0] && StartsLower(al, s[1..], prefix[1..]))
  }

  predicate SafeLinkTarget<A>(al: Alphabet<A>, target: seq<A>) {
    || StartsLower(al, target, "http://") || StartsLower(al, target, "https://") || StartsLower(al, target, "mailto:")
    || (var colon := Run(al, target, ":");
        colon == |target| || Run(al, target, "/") < colon)
  }

  datatype Rule = Link | Bold | Emphasis

  /** What a rule makes of the start of a text, and the text behind that. */
  datatype Hit<A> = Hit(replacement: seq<A>, rest: seq<A>)

  function Wrapped<A>(al: Alphabet<A>, open: string, body: seq<A>, close: string): seq<A> {
    Written(al, open) + body + Written(al, close)
  }

  /** Three literals around two texts. */
  function Framed<A>(al: Alphabet<A>, p: string, x: seq<A>, q: string, y: seq<A>, r: string): seq<A> {
    Wrapped(al, p, x, q) + y + Written(al, r)
  }

  /** An unsafe target leaves the text as it is. */
  function Linked<A>(al: Alphabet<A>, caption: seq<A>, target: seq<A>): seq<A> {
    if SafeLinkTarget(al, target) then Framed(al, "<a href=\"", target, "\">", caption, "</a>")
    else Framed(al, "[", caption, "](", target, ")")
  }

  function LinkAt<A>(al: Alphabet<A>, s: seq<A>): (h: Option<Hit<A>>)
    ensures h.Some? ==> |h.value.rest| < |s|
  {
    match Delimited(al, s, "[", "[]", "]")
    case None => None
    case Some(cut) => TargetAt(al, cut.body, cut.rest)
  }

  function TargetAt<A>(al: Alphabet<A>, caption: seq<A>, s: seq<A>): (h: Option<Hit<A>>)
    ensures h.Some? ==> |h.value.rest| < |s|
  {
    match Delimited(al, s, "(", "()" + SPACE, ")")
    case None => None
    case Some(cut) => Some(Hit(Linked(al, caption, cut.body), cut.rest))
  }

  function BoldAt<A>(al: Alphabet<A>, s: seq<A>): (h: Option<Hit<A>>)
    ensures h.Some? ==> |h.value.rest| < |s|
  {
    match Delimited(al, s, "**", "*", "**")
    case None => None
    case Some(cut) => Some(Hit(Wrapped(al, "<strong>", cut.body, "</strong>"), cut.rest))
  }

  predicate SpaceAtEnd<A>(al: Alphabet<A>, body: seq<A>)
    requires body != []
  {
    al.read(body[0]) in SPACE || al.read(body[|body| - 1]) in SPACE
  }

  function EmphasisAt<A>(al: Alphabet<A>, s: seq<A>): (h: Option<Hit<A>>)
    ensures h.Some? ==> |h.value.rest| < |s|
  {
    match Delimited(al, s, "*", "*", "*")
    case None => None
    case Some(cut) =>
      if SpaceAtEnd(al, cut.body) then None
      else Some(Hit(Wrapped(al, "<em>", cut.body, "</em>"), cut.rest))
  }

  function HitAt<A>(rule: Rule, al: Alphabet<A>, s: seq<A>): (h: Option<Hit<A>>)
    ensures h.Some? ==> |h.value.rest| < |s|
  {
    match rule
    case Link => LinkAt(al, s)
    case Bold => BoldAt(al, s)
    case Emphasis => EmphasisAt(al, s)
  }

  type Finder<!A> = seq<A> -> Option<Hit<A>>

  /** Regexp.ReplaceAll: hits from left to right, without overlap.  A hit takes at least one character. */
  function ReplaceAll<A>(find: Finder<A>, s: seq<A>): seq<A>
    decreases |s|
  {
    if s == [] then []
    else
      match find(s)
      case Some(hit) => hit.replacement + (if |hit.rest| < |s| then ReplaceAll(find, hit.rest) else hit.rest)
      case None => [s[0]] + ReplaceAll(find, s[1..])
  }

  function Replaced<A>(rule: Rule, al: Alphabet<A>, s: seq<A>): seq<A> {
    ReplaceAll((t: seq<A>) => HitAt(rule, al, t), s)
  }

  function Styled<A>(al: Alphabet<A>, s: seq<A>): seq<A> {
    Replaced(Emphasis, al, Replaced(Bold, al, Replaced(Link, al, s)))
  }

  // ----- placeholders are as opaque as single symbols -----

  lemma {:induction false} SpelledAppend(a: seq<Atom>, b: seq<Atom>)
    ensures Spelled(a + b) == Spelled(a) + Spelled(b)
  {
    if a == [] {
      assert a + b == b;
    } else {
      assert (a + b)[0] == a[0] && (a + b)[1..] == a[1..] + b;
      SpelledAppend(a[1..], b);
    }
  }

  lemma {:induction false} SpelledWritten(s: string)
    ensures Written(PLAIN, s) == s
    ensures Spelled(Written(ATOMS, s)) == s
  {
    if s != "" {
      SpelledWritten(s[1..]);
    }
  }

  lemma SpelledCut(a: seq<Atom>, n: nat)
    requires n <= |a|
    ensures Spelled(a) == Spelled(a[..n]) + Spelled(a[n..])
  {
    assert a == a[..n] + a[n..];
    SpelledAppend(a[..n], a[n..]);
  }

  /** The spelling starts and ends with what the first and the last atom read like. */
  lemma {:induction false} SpelledEnds(a: seq<Atom>)
    requires a != []
    ensures Spelled(a) != ""
    ensures Spelled(a)[0] == ATOMS.read(a[0])
    ensures Spelled(a)[|Spelled(a)| - 1] == ATOMS.read(a[|a| - 1])
  {
    if |a| > 1 {
      SpelledEnds(a[1..]);
    } else {
      assert Spelled(a[1..]) == "";
      assert Spelled(a) == Spelling(a[0]);
    }
  }

  /** No rule mentions what placeholders are made of. */
  predicate Neutral(c: char) {
    c == NUL || IsDigit(c)
  }

  predicate Avoids(stops: string) {
    forall c :: c in stops ==> !Neutral(c)
  }

  lemma {:induction false} RunOver(p: string, rest: string, stops: string)
    requires forall i :: 0 <= i < |p| ==> p[i] !in stops
    ensures Run(PLAIN, p + rest, stops) == |p| + Run(PLAIN, rest, stops)
  {
    if p == "" {
      assert p + rest == rest;
    } else {
      assert (p + rest)[1..] == p[1..] + rest;
      RunOver(p[1..], rest, stops);
    }
  }

  lemma RunNext(a: seq<Atom>, stops: string)
    requires a != [] && ATOMS.read(a[0]) !in stops && Avoids(stops)
    ensures Run(PLAIN, Spelled(a), stops) == |Spelling(a[0])| + Run(PLAIN, Spelled(a[1..]), stops)
  {
    RunOver(Spelling(a[0]), Spelled(a[1..]), stops);
  }

  lemma {:induction false} RunLength(a: seq<Atom>, stops: string)
    requires Avoids(stops)
    ensures Run(PLAIN, Spelled(a), stops) == |Spelled(a[..Run(ATOMS, a, stops)])|
  {
    if a != [] {
      if ATOMS.read(a[0]) in stops {
        SpelledEnds(a);
      } else {
        var n := Run(ATOMS, a[1..], stops);
        assert a[..n + 1][0] == a[0] && a[..n + 1][1..] == a[1..][..n];
        RunLength(a[1..], stops);
        RunNext(a, stops);
      }
    }
  }

  lemma RunSpelled(a: seq<Atom>, stops: string)
    requires Avoids(stops)
    ensures
      var n, m := Run(ATOMS, a, stops), Run(PLAIN, Spelled(a), stops);
      && (m == 0 <==> n == 0)
      && Spelled(a)[..m] == Spelled(a[..n]) && Spelled(a)[m..] == Spelled(a[n..])
  {
    var n := Run(ATOMS, a, stops);
    RunLength(a, stops);
    SpelledCut(a, n);
    if n > 0 {
      SpelledEnds(a[..n]);
    }
  }

  lemma WrappedSpelled(open: string, body: seq<Atom>, close: string)
    ensures Spelled(Wrapped(ATOMS, open, body, close)) == Wrapped(PLAIN, open, Spelled(body), close)
  {
    SpelledAppend(Written(ATOMS, open) + body, Written(ATOMS, close));
    SpelledAppend(Written(ATOMS, open), body);
    SpelledWritten(open);
    SpelledWritten(close);
  }

  /** The same hit, or none, on the spelling as on the atoms. */
  predicate SameHit(plain: Option<Hit<char>>, atoms: Option<Hit<Atom>>) {
    match atoms
    case None => plain == None
    case Some(hit) => plain == Some(Hit(Spelled(hit.replacement), Spelled(hit.rest)))
  }

  lemma {:induction false} BehindSpelled(a: seq<Atom>, literal: string)
    requires NUL !in literal
    ensures
      Behind(PLAIN, Spelled(a), literal)
      == match Behind(ATOMS, a, literal) case None => None case Some(rest) => Some(Spelled(rest))
    decreases |literal|
  {
    if literal != "" && a != [] {
      SpelledEnds(a);
      if ATOMS.read(a[0]) == literal[0] {
        BehindSpelled(a[1..], literal[1..]);
      }
    }
  }

  lemma DelimitedSpelled(a: seq<Atom>, open: string, stops: string, close: string)
    requires NUL !in open && NUL !in close && Avoids(stops)
    ensures
      Delimited(PLAIN, Spelled(a), open, stops, close)
      == match Delimited(ATOMS, a, open, stops, close)
         case None => None
         case Some(cut) => Some(Cut(Spelled(cut.body), Spelled(cut.rest)))
  {
    BehindSpelled(a, open);
    var t := Behind(ATOMS, a, open);
    if t.Some? {
      RunSpelled(t.value, stops);
      BehindSpelled(t.value[Run(ATOMS, t.value, stops)..], close);
    }
  }

  lemma BoldSpelled(a: seq<Atom>)
    ensures SameHit(BoldAt(PLAIN, Spelled(a)), BoldAt(ATOMS, a))
  {
    DelimitedSpelled(a, "**", "*", "**");
    var cut := Delimited(ATOMS, a, "**", "*", "**");
    if cut.Some? {
      WrappedSpelled("<strong>", cut.value.body, "</strong>");
    }
  }

  lemma SpaceAtEndSpelled(body: seq<Atom>)
    requires body != []
    ensures Spelled(body) != [] && SpaceAtEnd(PLAIN, Spelled(body)) == SpaceAtEnd(ATOMS, body)
  {
    SpelledEnds(body);
  }

  lemma EmphasisSpelled(a: seq<Atom>)
    ensures SameHit(EmphasisAt(PLAIN, Spelled(a)), EmphasisAt(ATOMS, a))
  {
    DelimitedSpelled(a, "*", "*", "*");
    var cut := Delimited(ATOMS, a, "*", "*", "*");
    if cut.Some? {
      SpaceAtEndSpelled(cut.value.body);
      WrappedSpelled("<em>", cut.value.body, "</em>");
    }
  }

  lemma {:induction false} StartsLowerSpelled(a: seq<Atom>, prefix: string)
    requires NUL !in prefix
    ensures StartsLower(PLAIN, Spelled(a), prefix) == StartsLower(ATOMS, a, prefix)
    decreases |prefix|
  {
    if prefix != "" && a != [] {
      SpelledEnds(a);
      if Lower(ATOMS.read(a[0])) == prefix[0] {
        StartsLowerSpelled(a[1..], prefix[1..]);
      }
    }
  }

  lemma SpelledGrows(a: seq<Atom>, m: nat, n: nat)
    requires m < n <= |a|
    ensures |Spelled(a[..m])| < |Spelled(a[..n])|
  {
    SpelledCut(a[..n], m);
    assert a[..n][..m] == a[..m];
    SpelledEnds(a[..n][m..]);
  }

  lemma SafeSpelled(target: seq<Atom>)
    ensures SafeLinkTarget(PLAIN, Spelled(target)) == SafeLinkTarget(ATOMS, target)
  {
    StartsLowerSpelled(target, "http://");
    StartsLowerSpelled(target, "https://");
    StartsLowerSpelled(target, "mailto:");
    var colon, slash := Run(ATOMS, target, ":"), Run(ATOMS, target, "/");
    RunLength(target, ":");
    RunLength(target, "/");
    assert target[..|target|] == target;
    if colon < |target| {
      SpelledGrows(target, colon, |target|);
    }
    if slash < colon {
      SpelledGrows(target, slash, colon);
    } else if colon < slash {
      SpelledGrows(target, colon, slash);
    }
  }

  lemma FramedSpelled(p: string, x: seq<Atom>, q: string, y: seq<Atom>, r: string)
    ensures Spelled(Framed(ATOMS, p, x, q, y, r)) == Framed(PLAIN, p, Spelled(x), q, Spelled(y), r)
  {
    SpelledAppend(Wrapped(ATOMS, p, x, q) + y, Written(ATOMS, r));
    SpelledAppend(Wrapped(ATOMS, p, x, q), y);
    WrappedSpelled(p, x, q);
    SpelledWritten(r);
  }

  lemma LinkedSpelled(caption: seq<Atom>, target: seq<Atom>)
    ensures Spelled(Linked(ATOMS, caption, target)) == Linked(PLAIN, Spelled(caption), Spelled(target))
  {
    SafeSpelled(target);
    FramedSpelled("<a href=\"", target, "\">", caption, "</a>");
    FramedSpelled("[", caption, "](", target, ")");
  }

  lemma TargetSpelled(caption: seq<Atom>, a: seq<Atom>)
    ensures SameHit(TargetAt(PLAIN, Spelled(caption), Spelled(a)), TargetAt(ATOMS, caption, a))
  {
    DelimitedSpelled(a, "(", "()" + SPACE, ")");
    var cut := Delimited(ATOMS, a, "(", "()" + SPACE, ")");
    if cut.Some? {
      LinkedSpelled(caption, cut.value.body);
    }
  }

  lemma LinkSpelled(a: seq<Atom>)
    ensures SameHit(LinkAt(PLAIN, Spelled(a)), LinkAt(ATOMS, a))
  {
    DelimitedSpelled(a, "[", "[]", "]");
    var cut := Delimited(ATOMS, a, "[", "[]", "]");
    if cut.Some? {
      TargetSpelled(cut.value.body, cut.value.rest);
    }
  }

  lemma HitSpelled(rule: Rule, a: seq<Atom>)
    ensures SameHit(HitAt(rule, PLAIN, Spelled(a)), HitAt(rule, ATOMS, a))
  {
    match rule
    case Link => LinkSpelled(a);
    case Bold => BoldSpelled(a);
    case Emphasis => EmphasisSpelled(a);
  }

  /** Nothing hits where a placeholder, or a rest of one, comes next. */
  ghost predicate LeavesNeutral(find: Finder<char>) {
    forall s: string :: s != "" && Neutral(s[0]) ==> find(s) == None
  }

  ghost predicate Advances<A(!new)>(find: Finder<A>) {
    forall s: seq<A> :: s != [] && find(s).Some? ==> |find(s).value.rest| < |s|
  }

  ghost predicate Alike(plain: Finder<char>, atoms: Finder<Atom>) {
    && LeavesNeutral(plain) && Advances(plain) && Advances(atoms)
    && forall a: seq<Atom> :: a != [] ==> SameHit(plain(Spelled(a)), atoms(a))
  }

  lemma {:induction false} ReplaceSkips(find: Finder<char>, p: string, rest: string)
    requires LeavesNeutral(find) && forall i :: 0 <= i < |p| ==> Neutral(p[i])
    ensures ReplaceAll(find, p + rest) == p + ReplaceAll(find, rest)
  {
    if p == "" {
      assert p + rest == rest;
    } else {
      var s := p + rest;
      assert s[0] == p[0] && s[1..] == p[1..] + rest;
      assert find(s) == None;
      ReplaceSkips(find, p[1..], rest);
      Assoc([p[0]], p[1..], ReplaceAll(find, rest));
    }
  }

  lemma KeptSpelled(find: Finder<char>, a: Atom, rest: string)
    requires LeavesNeutral(find) && (a.Ch? ==> find([a.c] + rest) == None)
    ensures ReplaceAll(find, Spelling(a) + rest) == Spelling(a) + ReplaceAll(find, rest)
  {
    if a.Span? {
      ReplaceSkips(find, Spelling(a), rest);
    } else {
      assert ([a.c] + rest)[1..] == rest;
    }
  }

  /** A rule on the text with placeholders does what it does on the text with single symbols. */
  lemma {:induction false} ReplaceSpelled(plain: Finder<char>, atoms: Finder<Atom>, a: seq<Atom>)
    requires Alike(plain, atoms)
    ensures ReplaceAll(plain, Spelled(a)) == Spelled(ReplaceAll(atoms, a))
    decreases |a|
  {
    if a != [] {
      SpelledEnds(a);
      assert SameHit(plain(Spelled(a)), atoms(a));
      match atoms(a) {
        case Some(hit) =>
          ReplaceSpelled(plain, atoms, hit.rest);
          SpelledAppend(hit.replacement, ReplaceAll(atoms, hit.rest));
        case None =>
          ReplaceSpelled(plain, atoms, a[1..]);
          KeptSpelled(plain, a[0], Spelled(a[1..]));
          var kept := [a[0]] + ReplaceAll(atoms, a[1..]);
          assert kept[0] == a[0] && kept[1..] == ReplaceAll(atoms, a[1..]);
      }
    }
  }

  lemma ReplacedSpelled(rule: Rule, a: seq<Atom>)
    ensures Replaced(rule, PLAIN, Spelled(a)) == Spelled(Replaced(rule, ATOMS, a))
  {
    var plain, atoms := (t: string) => HitAt(rule, PLAIN, t), (t: seq<Atom>) => HitAt(rule, ATOMS, t);
    forall s: string | s != "" && Neutral(s[0]) ensures plain(s) == None {
      assert Behind(PLAIN, s, "[") == None && Behind(PLAIN, s, "*") == None && Behind(PLAIN, s, "**") == None;
    }
    forall b: seq<Atom> | b != [] ensures SameHit(plain(Spelled(b)), atoms(b)) {
      HitSpelled(rule, b);
    }
    ReplaceSpelled(plain, atoms, a);
  }

  lemma StyledSpelled(a: seq<Atom>)
    ensures Styled(PLAIN, Spelled(a)) == Spelled(Styled(ATOMS, a))
  {
    ReplacedSpelled(Link, a);
    ReplacedSpelled(Bold, Replaced(Link, ATOMS, a));
    ReplacedSpelled(Emphasis, Replaced(Bold, ATOMS, Replaced(Link, ATOMS, a)));
  }
}
