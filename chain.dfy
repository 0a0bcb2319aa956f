/** Prompt chains: one string holding several prompts separated by `~`,
    expanded by `chain.split('~').map(p => p.trim()).filter(p => p.length > 0)`. */
module PromptChain {
  import opened Strings

  const Separator: char := '~'

  /** A prompt as it sits in the queue: non-empty, nothing to trim. */
  ghost predicate IsPrompt(p: string) {
    p != [] && IsTrimmed(p)
  }

  /** `String.prototype.split('~')`: the pieces between separators, with an
      empty piece wherever two separators touch or one sits at an end. */
  function Split(s: string): (parts: seq<string>)
    ensures |parts| >= 1
    ensures forall k :: 0 <= k < |parts| ==> Separator !in parts[k]
  {
    if s == [] then
      [[]]
    else
      var rest := Split(s[1..]);
      if s[0] == Separator then [[]] + rest
      else [[s[0]] + rest[0]] + rest[1..]
  }

  /** `Array.prototype.join('~')`, the inverse of `Split`. */
  function Join(parts: seq<string>): string {
    if |parts| == 0 then []
    else if |parts| == 1 then parts[0]
    else parts[0] + [Separator] + Join(parts[1..])
  }

  /** Splitting yields one more piece than there are separators. */
  lemma {:induction false} SplitCount(s: string)
    ensures |Split(s)| == multiset(s)[Separator] + 1
  {
    if s != [] {
      SplitCount(s[1..]);
      assert s == [s[0]] + s[1..];
      assert multiset(s) == multiset([s[0]]) + multiset(s[1..]);
    }
  }

  lemma {:induction false} JoinSplit(s: string)
    ensures Join(Split(s)) == s
  {
    if s != [] {
      var rest := Split(s[1..]);
      JoinSplit(s[1..]);
      if s[0] == Separator {
        assert Split(s)[1..] == rest;
      } else if |rest| == 1 {
        assert Split(s) == [[s[0]] + rest[0]];
      } else {
        var parts := Split(s);
        assert parts[1..] == rest[1..];
        assert Join(rest) == rest[0] + [Separator] + Join(rest[1..]);
      }
    }
  }

  /** A separator splits the string into the pieces on its left followed by
      the pieces on its right. */
  lemma {:induction false} SplitAround(a: string, b: string)
    ensures Split(a + [Separator] + b) == Split(a) + Split(b)
  {
    if a == [] {
      assert a + [Separator] + b == [Separator] + b;
      assert ([Separator] + b)[1..] == b;
    } else {
      var s := a + [Separator] + b;
      assert s[0] == a[0] && s[1..] == a[1..] + [Separator] + b;
      SplitAround(a[1..], b);
    }
  }

  lemma {:induction false} SplitWithoutSeparator(p: string)
    requires Separator !in p
    ensures Split(p) == [p]
  {
    if p != [] {
      assert p[1..] == p[1..];
      assert forall c :: c in p[1..] ==> c in p;
      SplitWithoutSeparator(p[1..]);
      assert [p[0]] + p[1..] == p;
    }
  }

  lemma {:induction false} SplitJoin(parts: seq<string>)
    requires |parts| >= 1
    requires forall k :: 0 <= k < |parts| ==> Separator !in parts[k]
    ensures Split(Join(parts)) == parts
  {
    SplitWithoutSeparator(parts[0]);
    if |parts| > 1 {
      SplitJoin(parts[1..]);
      SplitAround(parts[0], Join(parts[1..]));
      assert parts == [parts[0]] + parts[1..];
    }
  }

  /** The trim-and-drop-empty stage of the pipeline, piece by piece. */
  function Prompts(parts: seq<string>): (ps: seq<string>)
    ensures |ps| <= |parts|
    ensures forall k :: 0 <= k < |ps| ==> IsPrompt(ps[k])
    ensures (forall k :: 0 <= k < |parts| ==> Separator !in parts[k]) ==>
              forall k :: 0 <= k < |ps| ==> Separator !in ps[k]
  {
    if parts == [] then
      []
    else
      var t := Trim(parts[0]);
      TrimIsTrimmed(parts[0]);
      assert forall c :: c in t ==> c in parts[0];
      (if t == [] then [] else [t]) + Prompts(parts[1..])
  }

  /** The prompts `runPromptChain` extracts from a chain. */
  function ParseChain(chain: string): (ps: seq<string>)
    ensures forall k :: 0 <= k < |ps| ==> IsPrompt(ps[k]) && Separator !in ps[k]
  {
    Prompts(Split(chain))
  }

  /** A chain yields at most one prompt more than it has separators. */
  lemma ParseChainBound(chain: string)
    ensures |ParseChain(chain)| <= multiset(chain)[Separator] + 1
  {
    SplitCount(chain);
  }

  lemma {:induction false} PromptsAppend(a: seq<string>, b: seq<string>)
    ensures Prompts(a + b) == Prompts(a) + Prompts(b)
  {
    if a != [] {
      var t := Trim(a[0]);
      var head := if t == [] then [] else [t];
      assert (a + b)[0] == a[0] && (a + b)[1..] == a[1..] + b;
      assert Prompts(a + b) == head + Prompts(a[1..] + b);
      PromptsAppend(a[1..], b);
      assert head + (Prompts(a[1..]) + Prompts(b)) == (head + Prompts(a[1..])) + Prompts(b);
    } else {
      assert a + b == b;
    }
  }

  /** Pieces that are already prompts pass the trim-and-filter stage as they are. */
  lemma {:induction false} PromptsOfPrompts(ps: seq<string>)
    requires forall k :: 0 <= k < |ps| ==> IsPrompt(ps[k])
    ensures Prompts(ps) == ps
  {
    if ps != [] {
      var p := ps[0];
      assert p[0..|p|] == p;
      TrimIsUnique(p, 0, |p|);
      PromptsOfPrompts(ps[1..]);
    }
  }

  /** Order is kept across a separator: the prompts of `a ~ b` are those of
      `a` followed by those of `b`. */
  lemma {:induction false} ParseChainAround(a: string, b: string)
    ensures ParseChain(a + [Separator] + b) == ParseChain(a) + ParseChain(b)
  {
    SplitAround(a, b);
    PromptsAppend(Split(a), Split(b));
  }

  /** A chain written from prompts parses back to exactly those prompts. */
  lemma {:induction false} ParseChainJoin(ps: seq<string>)
    requires forall k :: 0 <= k < |ps| ==> IsPrompt(ps[k]) && Separator !in ps[k]
    ensures ParseChain(Join(ps)) == ps
  {
    if ps == [] {
      assert Split([]) == [[]];
      assert Trim([]) == [];
    } else {
      SplitJoin(ps);
      PromptsOfPrompts(ps);
    }
  }

  /** A piece without separators contributes its trimmed text, unless that is empty. */
  lemma {:induction false} ParseChainPiece(s: string)
    requires Separator !in s
    ensures ParseChain(s) == if Trim(s) == [] then [] else [Trim(s)]
  {
    SplitWithoutSeparator(s);
    assert Split(s)[1..] == [];
  }

  /** A blank chain holds no prompts, so the `chain.trim()` test in front
      of the split only short-cuts what the filter would find anyway. */
  lemma {:induction false} BlankChainHasNoPrompts(s: string)
    requires AllWhitespace(s)
    ensures ParseChain(s) == []
  {
    assert !IsWhitespace(Separator);
    assert Separator !in s;
    ParseChainPiece(s);
    TrimEmptyIff(s);
  }

  /** The shape of the worked example "write a poem ~ summarize it ~ ": two
      prompts written with a space on each side of the separators and one
      trailing separator queue exactly those two prompts, in order; the
      blank piece after the last separator is dropped. */
  lemma {:induction false} TwoPromptChain(p: string, q: string)
    requires IsPrompt(p) && Separator !in p
    requires IsPrompt(q) && Separator !in q
    ensures ParseChain(p + " ~ " + q + " ~ ") == [p, q]
  {
    var a, b, c := p + " ", " " + q + " ", " ";
    ChainOfThreePieces(p, q);
    PieceWithSpaceAfter(a, p);
    PieceWithSpacesAround(b, q);
    BlankChainHasNoPrompts(c);
    TwoAndBlank(a, b, c, p, q);
  }

  /** Two one-prompt pieces and a blank one, separated, give the two prompts. */
  lemma TwoAndBlank(a: string, b: string, c: string, p: string, q: string)
    requires ParseChain(a) == [p] && ParseChain(b) == [q] && ParseChain(c) == []
    ensures ParseChain(a + [Separator] + (b + [Separator] + c)) == [p, q]
  {
    ThreePieces(a, b, c);
    assert [p] + ([q] + []) == [p, q];
  }

  lemma ChainOfThreePieces(p: string, q: string)
    ensures p + " ~ " + q + " ~ " == (p + " ") + [Separator] + ((" " + q + " ") + [Separator] + " ")
  {
  }

  lemma {:induction false} ThreePieces(a: string, b: string, c: string)
    ensures ParseChain(a + [Separator] + (b + [Separator] + c)) == ParseChain(a) + (ParseChain(b) + ParseChain(c))
  {
    var tail := b + [Separator] + c;
    ParseChainAround(a, tail);
    ParseChainAround(b, c);
  }

  lemma ParseChainExample()
    ensures ParseChain("write a poem ~ summarize it ~ ") == ["write a poem", "summarize it"]
  {
    var p, q := "write a poem", "summarize it";
    assert IsPrompt(p) && Separator !in p by {
      assert forall i :: 0 <= i < |p| ==> p[i] != Separator;
    }
    assert IsPrompt(q) && Separator !in q by {
      assert forall i :: 0 <= i < |q| ==> q[i] != Separator;
    }
    assert p + " ~ " + q + " ~ " == "write a poem ~ summarize it ~ ";
    TwoPromptChain(p, q);
  }

  lemma PieceWithSpaceAfter(a: string, p: string)
    requires IsPrompt(p) && Separator !in p && a == p + " "
    ensures ParseChain(a) == [p]
  {
    assert a[0..|p|] == p;
    TrimIsUnique(a, 0, |p|);
    ParseChainPiece(a);
  }

  lemma PieceWithSpacesAround(b: string, p: string)
    requires IsPrompt(p) && Separator !in p && b == " " + p + " "
    ensures ParseChain(b) == [p]
  {
    assert b[1..|p| + 1] == p;
    TrimIsUnique(b, 1, |p| + 1);
    ParseChainPiece(b);
  }
}
