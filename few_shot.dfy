/** The brace escaping of few-shot-learning.js. The prompt templates read `{x}`
    as a variable and `{{` / `}}` as a literal brace, so the code examples
    are passed through escapeCurlyBraces, which doubles every brace: the
    template then gives back the original text. */
module FewShot {

  /** `s.replace(/c/g, rep)`: every `c` becomes `rep`, in one left-to-right pass. */
  function ReplaceAll(s: string, c: char, rep: string): (r: string)
    ensures c !in s ==> r == s
  {
    if s == [] then []
    else (if s[0] == c then rep else [s[0]]) + ReplaceAll(s[1..], c, rep)
  }

  /** escapeCurlyBraces: `{` doubled first, then `}`. */
  function EscapeCurlyBraces(s: string): string {
    ReplaceAll(ReplaceAll(s, '{', "{{"), '}', "}}")
  }

  /** What escaping does to one character. */
  function EscapeChar(c: char): (r: string)
    ensures c == '{' ==> r == "{{"
    ensures c == '}' ==> r == "}}"
    ensures c != '{' && c != '}' ==> r == [c]
  {
    if c == '{' || c == '}' then [c, c] else [c]
  }

  /** The reference definition: each character escaped on its own, in order. */
  function EscapeEach(s: string): string {
    if s == [] then [] else EscapeChar(s[0]) + EscapeEach(s[1..])
  }

  /** How many braces `s` holds. */
  function Braces(s: string): (n: nat)
    ensures n <= |s|
  {
    if s == [] then 0 else (if s[0] == '{' || s[0] == '}' then 1 else 0) + Braces(s[1..])
  }

  lemma {:induction false} ReplaceAllAppend(a: string, b: string, c: char, rep: string)
    ensures ReplaceAll(a + b, c, rep) == ReplaceAll(a, c, rep) + ReplaceAll(b, c, rep)
  {
    if a != [] {
      assert (a + b)[1..] == a[1..] + b;
      ReplaceAllAppend(a[1..], b, c, rep);
    } else {
      assert a + b == b;
    }
  }

  /** The two passes agree with escaping character by character: the first
      pass adds no `}` for the second to double. */
  lemma {:induction false} EscapeIsEscapeEach(s: string)
    ensures EscapeCurlyBraces(s) == EscapeEach(s)
  {
    if s != [] {
      EscapeIsEscapeEach(s[1..]);
      var head := if s[0] == '{' then "{{" else [s[0]];
      assert ReplaceAll(s, '{', "{{") == head + ReplaceAll(s[1..], '{', "{{");
      ReplaceAllAppend(head, ReplaceAll(s[1..], '{', "{{"), '}', "}}");
      assert ReplaceAll(head, '}', "}}") == EscapeChar(s[0]) by {
        if s[0] == '{' {
          assert ReplaceAll(head, '}', "}}") == ['{'] + ReplaceAll(['{'], '}', "}}");
        } else {
          assert ReplaceAll(head, '}', "}}") == (if s[0] == '}' then "}}" else [s[0]]) + ReplaceAll([], '}', "}}");
        }
      }
    }
  }

  /** Escaping lengthens the text by one character per brace. */
  lemma {:induction false} EscapeLength(s: string)
    ensures |EscapeCurlyBraces(s)| == |s| + Braces(s)
  {
    EscapeIsEscapeEach(s);
    EscapeEachLength(s);
  }

  lemma {:induction false} EscapeEachLength(s: string)
    ensures |EscapeEach(s)| == |s| + Braces(s)
  {
    if s != [] {
      EscapeEachLength(s[1..]);
    }
  }

  /** Text without braces passes through unchanged. */
  lemma EscapeNoBraces(s: string)
    requires '{' !in s && '}' !in s
    ensures EscapeCurlyBraces(s) == s
  {
  }

  /** How the template reads literal text: `{{` gives `{`, `}}` gives `}`,
      any other character stands for itself. */
  function Unescape(t: string): (r: string)
    ensures |r| <= |t|
  {
    if |t| >= 2 && t[0] == '{' && t[1] == '{' then "{" + Unescape(t[2..])
    else if |t| >= 2 && t[0] == '}' && t[1] == '}' then "}" + Unescape(t[2..])
    else if t == [] then []
    else [t[0]] + Unescape(t[1..])
  }

  /** The template gives back exactly the text that was escaped. */
  lemma {:induction false} UnescapeEscape(s: string)
    ensures Unescape(EscapeCurlyBraces(s)) == s
  {
    EscapeIsEscapeEach(s);
    UnescapeEscapeEach(s);
  }

  lemma {:induction false} UnescapeEscapeEach(s: string)
    ensures Unescape(EscapeEach(s)) == s
  {
    if s != [] {
      UnescapeEscapeEach(s[1..]);
      var t := EscapeEach(s);
      assert t == EscapeChar(s[0]) + EscapeEach(s[1..]);
      if s[0] == '{' || s[0] == '}' {
        assert t[2..] == EscapeEach(s[1..]);
      } else {
        assert t[1..] == EscapeEach(s[1..]);
      }
      assert [s[0]] + s[1..] == s;
    }
  }

  /** Escaping is injective: different texts never escape alike. */
  lemma EscapeInjective(a: string, b: string)
    requires EscapeCurlyBraces(a) == EscapeCurlyBraces(b)
    ensures a == b
  {
    UnescapeEscape(a);
    UnescapeEscape(b);
  }

  /** One few-shot example. */
  datatype Example = Example(question: string, answer: string)

  /** escapedExamples: each example with its question and answer escaped. */
  function EscapeExamples(examples: seq<Example>): (r: seq<Example>)
    ensures |r| == |examples|
    ensures forall i :: 0 <= i < |examples| ==>
      r[i] == Example(EscapeCurlyBraces(examples[i].question), EscapeCurlyBraces(examples[i].answer))
  {
    seq(|examples|, i requires 0 <= i < |examples| =>
      examples[i].(question := EscapeCurlyBraces(examples[i].question), answer := EscapeCurlyBraces(examples[i].answer)))
  }

  /** Every escaped example reads back, through the template, as the original. */
  lemma EscapedExamplesReadBack(examples: seq<Example>)
    ensures var r := EscapeExamples(examples);
      forall i :: 0 <= i < |examples| ==>
        Unescape(r[i].question) == examples[i].question && Unescape(r[i].answer) == examples[i].answer
  {
    forall i | 0 <= i < |examples|
      ensures Unescape(EscapeCurlyBraces(examples[i].question)) == examples[i].question
      ensures Unescape(EscapeCurlyBraces(examples[i].answer)) == examples[i].answer
    {
      UnescapeEscape(examples[i].question);
      UnescapeEscape(examples[i].answer);
    }
  }
}
