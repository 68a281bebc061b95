/** Values shared by the whole model, and the character classes and scanning
    helpers that the shortlog parser and the config reader are built from.

    Strings are sequences of characters. The character classes follow Python:
    `IsSpace` is the set of characters `str.isspace` accepts, which is also
    what `\s` in a `str` pattern, `str.split()` and `str.strip()` use. */
module Basics {

  datatype Option<+T> = None | Some(value: T)

  /** The exceptions the script lets escape: a menu index that is not a key
      of the round's choices (KeyError), and a configuration line with fewer
      than two fields (ValueError when unpacking `split(maxsplit=1)`). */
  datatype Failure = NoSuchChoice(round: nat, choice: int) | TooFewFields(line: string)

  datatype Result<+T> = Ok(value: T) | Err(failure: Failure)

  /** An identity as it appears in history or in the git configuration. */
  datatype Identity = Identity(name: string, email: string)

  /** Python's whitespace characters. */
  predicate IsSpace(c: char) {
    c == ' ' || ('\t' <= c <= '\r') || ('\U{1C}' <= c <= '\U{1F}')
    || c == '\U{85}' || c == '\U{A0}' || c == '\U{1680}'
    || ('\U{2000}' <= c <= '\U{200A}') || c == '\U{2028}' || c == '\U{2029}'
    || c == '\U{202F}' || c == '\U{205F}' || c == '\U{3000}'
  }

  /** `\d`, restricted to the ASCII decimal digits. */
  predicate IsDigit(c: char) {
    '0' <= c <= '9'
  }

  predicate IsNonSpace(c: char) { !IsSpace(c) }

  /** The class `[^<]`. */
  predicate NotOpen(c: char) { c != '<' }

  /** The class `[^>]`. */
  predicate NotClose(c: char) { c != '>' }

  /** Positions `i` to `j` of `s` are a run of characters of class `p`. */
  ghost predicate Run(s: string, i: nat, j: nat, p: char -> bool) {
    i <= j <= |s| && forall k :: i <= k < j ==> p(s[k])
  }

  /** The end of the longest run of characters of class `p` that starts at `i`. */
  function Span(s: string, i: nat, p: char -> bool): (j: nat)
    requires i <= |s|
    ensures Run(s, i, j, p)
    ensures j == |s| || !p(s[j])
    decreases |s| - i
  {
    if i < |s| && p(s[i]) then Span(s, i + 1, p) else i
  }

  /** A run of class `p` from `i` to `j` that cannot be extended is what Span finds. */
  lemma {:induction false} SpanAt(s: string, i: nat, j: nat, p: char -> bool)
    requires Run(s, i, j, p)
    requires j == |s| || !p(s[j])
    ensures Span(s, i, p) == j
    decreases j - i
  {
    if i < j {
      SpanAt(s, i + 1, j, p);
    }
  }

  /** Span runs at least as far as any run of class `p` that starts at `i`. */
  lemma {:induction false} SpanPast(s: string, i: nat, j: nat, p: char -> bool)
    requires Run(s, i, j, p)
    ensures j <= Span(s, i, p)
    decreases j - i
  {
    if i < j {
      SpanPast(s, i + 1, j, p);
    }
  }

  /** Two adjacent runs of the same class form one run. */
  lemma RunJoin(s: string, i: nat, j: nat, k: nat, p: char -> bool)
    requires Run(s, i, j, p) && Run(s, j, k, p)
    ensures Run(s, i, k, p)
  {
  }

  /** The start of the longest run of whitespace that ends at `j`. */
  function SpanBack(s: string, j: nat): (i: nat)
    requires j <= |s|
    ensures Run(s, i, j, IsSpace)
    ensures i == 0 || !IsSpace(s[i - 1])
  {
    if 0 < j && IsSpace(s[j - 1]) then SpanBack(s, j - 1) else j
  }

  /** Python's `str.strip()`: whitespace removed from both ends. */
  function Strip(s: string): (r: string)
    ensures r == [] || (!IsSpace(r[0]) && !IsSpace(r[|r| - 1]))
  {
    var i := Span(s, 0, IsSpace);
    var j := SpanBack(s, |s|);
    if j <= i then [] else s[i..j]
  }

  /** Strip removes exactly the surrounding whitespace and nothing else. */
  lemma StripExact(s: string, i: nat, j: nat)
    requires Run(s, 0, i, IsSpace) && Run(s, j, |s|, IsSpace) && i <= j
    requires i == j || (!IsSpace(s[i]) && !IsSpace(s[j - 1]))
    ensures Strip(s) == s[i..j]
  {
    if i < j {
      SpanAt(s, 0, i, IsSpace);
      SpanBackAt(s, j, |s|);
    }
  }

  /** The whitespace run that ends at the end of `s` starts where SpanBack says. */
  lemma {:induction false} SpanBackAt(s: string, i: nat, j: nat)
    requires Run(s, i, j, IsSpace)
    requires i == 0 || !IsSpace(s[i - 1])
    ensures SpanBack(s, j) == i
    decreases j - i
  {
    if i < j {
      SpanBackAt(s, i, j - 1);
    }
  }

  /** The positions of the elements of `s` that satisfy `p`, in increasing order. */
  function Where<T>(s: seq<T>, p: T -> bool): (idx: seq<nat>)
    ensures forall j :: 0 <= j < |idx| ==> idx[j] < |s|
    ensures forall j, k :: 0 <= j < k < |idx| ==> idx[j] < idx[k]
    ensures forall i :: 0 <= i < |s| ==> (i in idx <==> p(s[i]))
  {
    if s == [] then []
    else
      var n := |s| - 1;
      var before := Where(s[..n], p);
      assert forall i :: 0 <= i < n ==> s[..n][i] == s[i];
      before + if p(s[n]) then [n] else []
  }

  // Sequence identities, each proved on its own so that the proofs using
  // them do not have to rediscover them next to recursive definitions.

  lemma PartsAt<T>(s: seq<T>, i: nat)
    requires i < |s|
    ensures s == s[..i] + [s[i]] + s[i + 1..]
  {
  }

  lemma TakeSnoc<T>(s: seq<T>, i: nat)
    requires i < |s|
    ensures s[..i + 1] == s[..i] + [s[i]]
  {
  }

  lemma TakeAll<T>(s: seq<T>)
    ensures s[..|s|] == s
  {
  }

  lemma InitLast<T>(s: seq<T>)
    requires s != []
    ensures s == s[..|s| - 1] + [s[|s| - 1]]
  {
  }

  lemma InitOfSnoc<T>(s: seq<T>, x: T)
    ensures (s + [x])[..|s|] == s
  {
  }

  lemma InitOfAppend<T>(a: seq<T>, b: seq<T>)
    requires b != []
    ensures (a + b)[..|a + b| - 1] == a + b[..|b| - 1]
  {
  }

  lemma AppendEmpty<T>(a: seq<T>)
    ensures a + [] == a && [] + a == a
  {
  }
}
