/**
 * Prompt assembly for the language model (backend/app/llm/util.py): validation and
 * substitution of the summary template, and the numbered document blocks of the
 * retrieval-augmented answer prompt.
 */
module Prompts {
  import opened Wrappers

  /** How Python's `str()` renders an optional title: an absent one becomes the text `None`. */
  function TitleText(title: Option<string>): (r: string)
    ensures title.Some? ==> r == title.value
    ensures title.None? ==> r == "None"
  {
    if title.Some? then title.value else "None"
  }

  // ---------------------------------------------------------------------------
  // Summary template
  // ---------------------------------------------------------------------------

  /**
   * One unit of a parsed format template: a literal character, or a replacement
   * field with its name. Format specifications and conversions are not split off:
   * everything between the braces is the field's name.
   */
  datatype Segment = Char(c: char) | Field(name: string)

  predicate IsBrace(c: char) { c == '{' || c == '}' }

  predicate BraceFree(s: string) { forall i | 0 <= i < |s| :: !IsBrace(s[i]) }

  /** Reads a field name up to its closing brace; fails on end of input or a nested opening brace. */
  function TakeName(t: string): (r: Option<(string, string)>)
    ensures r.Some? ==> |r.value.1| < |t|
    ensures r.Some? ==> t == r.value.0 + "}" + r.value.1 && BraceFree(r.value.0)
  {
    if t == [] then None
    else if t[0] == '}' then Some(([], t[1..]))
    else if t[0] == '{' then None
    else
      match TakeName(t[1..])
      case None => None
      case Some((name, rest)) => Some(([t[0]] + name, rest))
  }

  /**
   * The template grammar of Python's `Formatter().parse`, simplified: `{{` and `}}`
   * stand for literal braces, `{name}` is a field, and a lone `}` or an unclosed `{`
   * is an error.
   */
  function Parse(t: string): (r: Option<seq<Segment>>)
    decreases |t|
  {
    if t == [] then Some([])
    else if t[0] == '{' && |t| > 1 && t[1] == '{' then Prepend(Char('{'), Parse(t[2..]))
    else if t[0] == '{' then
      match TakeName(t[1..])
      case None => None
      case Some((name, rest)) => Prepend(Field(name), Parse(rest))
    else if t[0] == '}' && |t| > 1 && t[1] == '}' then Prepend(Char('}'), Parse(t[2..]))
    else if t[0] == '}' then None
    else Prepend(Char(t[0]), Parse(t[1..]))
  }

  function Prepend(s: Segment, r: Option<seq<Segment>>): Option<seq<Segment>>
  {
    if r.None? then None else Some([s] + r.value)
  }

  /** The only field names the summary template may use. */
  predicate KnownField(name: string) { name == "title" || name == "text" }

  predicate OnlyKnownFields(segs: seq<Segment>)
  {
    forall i | 0 <= i < |segs| :: segs[i].Field? ==> KnownField(segs[i].name)
  }

  /** One segment of `str.format(text=..., title=...)`: a character stays, a known field is replaced. */
  function RenderOne(seg: Segment, text: string, title: Option<string>): string
  {
    match seg
    case Char(c) => [c]
    case Field(name) => if name == "text" then text else TitleText(title)
  }

  /** `str.format(text=..., title=...)` over a parsed template whose fields are all known. */
  function Render(segs: seq<Segment>, text: string, title: Option<string>): string
  {
    if segs == [] then [] else RenderOne(segs[0], text, title) + Render(segs[1..], text, title)
  }

  /** What `get_summary_prompt` produces: a prompt, or one of its two runtime errors. */
  datatype SummaryOutcome = Prompt(prompt: string) | NoTemplate | MalformedTemplate

  /**
   * `get_summary_prompt`, with the configured template passed in. A missing template
   * and a template with an unknown field are the two failures; otherwise the text and
   * the title are substituted.
   */
  function SummaryPrompt(template: Option<string>, text: string, title: Option<string>): (r: SummaryOutcome)
    ensures r.NoTemplate? <==> template.None?
    ensures r.MalformedTemplate? <==> template.Some? && (Parse(template.value).None? || !OnlyKnownFields(Parse(template.value).value))
    ensures r.Prompt? ==> Parse(template.value).Some? && OnlyKnownFields(Parse(template.value).value)
  {
    if template.None? then NoTemplate
    else
      var segs := Parse(template.value);
      if segs.None? || !OnlyKnownFields(segs.value) then MalformedTemplate
      else Prompt(Render(segs.value, text, title))
  }

  /** Writes one segment back as template text: braces doubled, a field wrapped in braces. */
  function UnparseOne(seg: Segment): string
  {
    match seg
    case Char(c) => if IsBrace(c) then [c, c] else [c]
    case Field(name) => "{" + name + "}"
  }

  /** Writes segments back as template text. */
  function Unparse(segs: seq<Segment>): string
  {
    if segs == [] then [] else UnparseOne(segs[0]) + Unparse(segs[1..])
  }

  /** Field names that can be written back: no braces inside them. */
  predicate PrintableFields(segs: seq<Segment>)
  {
    forall i | 0 <= i < |segs| :: segs[i].Field? ==> BraceFree(segs[i].name)
  }

  /** Parsing the text of one segment, followed by anything, yields that segment first. */
  lemma ParseOne(seg: Segment, rest: string)
    requires seg.Field? ==> BraceFree(seg.name)
    ensures Parse(UnparseOne(seg) + rest) == Prepend(seg, Parse(rest))
  {
    var t := UnparseOne(seg) + rest;
    match seg
    case Char(c) =>
      if IsBrace(c) {
        assert t[0] == c && t[1] == c && t[2..] == rest;
      } else {
        assert t[0] == c && t[1..] == rest;
      }
    case Field(name) =>
      assert t[0] == '{';
      assert t[1..] == name + "}" + rest;
      TakeNameOf(name, rest);
      if name == [] {
        assert t[1] == '}';
      } else {
        assert t[1] == name[0] && !IsBrace(name[0]);
      }
  }

  /** Parsing undoes writing back: every template built from segments parses to those segments. */
  lemma {:induction false} ParseUnparse(segs: seq<Segment>)
    requires PrintableFields(segs)
    ensures Parse(Unparse(segs)) == Some(segs)
  {
    if segs != [] {
      assert PrintableFields(segs[1..]) by {
        forall i | 0 <= i < |segs[1..]| ensures segs[1..][i].Field? ==> BraceFree(segs[1..][i].name) {
          assert segs[1..][i] == segs[i + 1];
        }
      }
      ParseUnparse(segs[1..]);
      ParseOne(segs[0], Unparse(segs[1..]));
      assert [segs[0]] + segs[1..] == segs;
    }
  }

  /** A brace-free name followed by its closing brace is read back exactly. */
  lemma {:induction false} TakeNameOf(name: string, rest: string)
    requires BraceFree(name)
    ensures TakeName(name + "}" + rest) == Some((name, rest))
  {
    var t := name + "}" + rest;
    if name == [] {
      assert t[1..] == rest;
    } else {
      assert !IsBrace(name[0]);
      assert t[1..] == name[1..] + "}" + rest;
      assert BraceFree(name[1..]) by {
        forall i | 0 <= i < |name[1..]| ensures !IsBrace(name[1..][i]) {
          assert name[1..][i] == name[i + 1];
        }
      }
      TakeNameOf(name[1..], rest);
      assert [t[0]] + name[1..] == name;
    }
  }

  /** Substitution works segment by segment, so it distributes over concatenation. */
  lemma {:induction false} RenderAppend(a: seq<Segment>, b: seq<Segment>, text: string, title: Option<string>)
    ensures Render(a + b, text, title) == Render(a, text, title) + Render(b, text, title)
  {
    if a != [] {
      assert (a + b)[0] == a[0];
      assert (a + b)[1..] == a[1..] + b;
      RenderAppend(a[1..], b, text, title);
      assert Render(a + b, text, title) == RenderOne(a[0], text, title) + Render(a[1..] + b, text, title);
      AppendAssoc(RenderOne(a[0], text, title), Render(a[1..], text, title), Render(b, text, title));
    } else {
      assert a + b == b;
    }
  }

  function Chars(s: string): (r: seq<Segment>)
    ensures |r| == |s|
    ensures forall i | 0 <= i < |s| :: r[i] == Char(s[i])
  {
    if s == [] then [] else [Char(s[0])] + Chars(s[1..])
  }

  /** A template without braces is literal text: it parses to its characters and renders to itself. */
  lemma {:induction false} PlainTemplate(s: string, text: string, title: Option<string>)
    requires BraceFree(s)
    ensures Parse(s) == Some(Chars(s))
    ensures Render(Chars(s), text, title) == s
  {
    if s != [] {
      assert !IsBrace(s[0]);
      assert BraceFree(s[1..]) by {
        forall i | 0 <= i < |s[1..]| ensures !IsBrace(s[1..][i]) {
          assert s[1..][i] == s[i + 1];
        }
      }
      PlainTemplate(s[1..], text, title);
      assert Chars(s)[1..] == Chars(s[1..]);
    }
  }

  /**
   * The summary prompt of a template written from known fields and literal text is
   * that text with every `{text}` replaced by the document text and every `{title}`
   * by its title.
   */
  lemma SummaryPromptSubstitutes(segs: seq<Segment>, text: string, title: Option<string>)
    requires PrintableFields(segs) && OnlyKnownFields(segs)
    ensures SummaryPrompt(Some(Unparse(segs)), text, title) == Prompt(Render(segs, text, title))
  {
    ParseUnparse(segs);
  }

  /** The two known fields render to the document's text and its title. */
  lemma RenderFields(text: string, title: Option<string>)
    ensures Render([Field("text")], text, title) == text
    ensures Render([Field("title")], text, title) == TitleText(title)
    ensures Render([Field("title")], text, None) == "None"
  {
  }

  /** A template that mentions any other field, in any position, is rejected. */
  lemma UnknownFieldRejected(a: seq<Segment>, name: string, b: seq<Segment>, text: string, title: Option<string>)
    requires PrintableFields(a + [Field(name)] + b) && BraceFree(name) && !KnownField(name)
    ensures SummaryPrompt(Some(Unparse(a + [Field(name)] + b)), text, title) == MalformedTemplate
  {
    var segs := a + [Field(name)] + b;
    ParseUnparse(segs);
    assert segs[|a|] == Field(name);
  }

  // ---------------------------------------------------------------------------
  // Retrieval-augmented answer prompt
  // ---------------------------------------------------------------------------

  function Digit(d: nat): (r: char)
    requires d < 10
    ensures '0' <= r <= '9'
  {
    "0123456789"[d]
  }

  function DigitValue(c: char): nat
  {
    if '0' <= c <= '9' then (c as int - '0' as int) as nat else 0
  }

  /** Python's `str()` of a non-negative integer: its decimal digits, most significant first. */
  function NatToString(n: nat): (r: string)
    ensures |r| > 0
    ensures forall i | 0 <= i < |r| :: '0' <= r[i] <= '9'
  {
    if n < 10 then [Digit(n)] else NatToString(n / 10) + [Digit(n % 10)]
  }

  /** Reads decimal digits back into a number. */
  function DecimalValue(s: string): nat
  {
    if s == [] then 0 else DecimalValue(s[..|s| - 1]) * 10 + DigitValue(s[|s| - 1])
  }

  /** The document numbers in the prompt are read back as the numbers written. */
  lemma {:induction false} NatToStringRoundTrip(n: nat)
    ensures DecimalValue(NatToString(n)) == n
  {
    var s := NatToString(n);
    if n < 10 {
      assert s[..0] == [];
      assert DigitValue(Digit(n)) == n by { DigitOf(n); }
    } else {
      NatToStringRoundTrip(n / 10);
      assert s[..|s| - 1] == NatToString(n / 10);
      DigitOf(n % 10);
    }
  }

  lemma DigitOf(d: nat)
    requires d < 10
    ensures DigitValue(Digit(d)) == d
  {
    assert "0123456789"[d] as int == '0' as int + d;
  }

  /** Different document numbers are written differently. */
  lemma NatToStringInjective(m: nat, n: nat)
    requires NatToString(m) == NatToString(n)
    ensures m == n
  {
    NatToStringRoundTrip(m);
    NatToStringRoundTrip(n);
  }

  /** The head of the prompt, with the question substituted. */
  function Header(question: string): string
  {
    "Answer the following question given the context documents below.\n\n    Question: "
    + question + "\n\n    Context documents:\n\n    "
  }

  /** The start marker of document block `docno`. */
  function BlockStart(docno: nat): string
  {
    "---------- DOCUMENT " + NatToString(docno) + "\n"
  }

  /** The end marker of document block `docno`. */
  function BlockEnd(docno: nat): string
  {
    "    ---------- END: DOCUMENT " + NatToString(docno) + "\n    "
  }

  /** One filled document block: start marker, title, text, end marker. */
  function Block(docno: nat, title: Option<string>, text: string): string
  {
    BlockStart(docno) + "    Title: " + TitleText(title) + "\n\n    Text: " + text + "\n" + BlockEnd(docno)
  }

  /** The blocks of `docs` in order, the i-th (from 0) numbered i + 1. */
  function Blocks(docs: seq<(Option<string>, string)>): string
  {
    if docs == [] then []
    else
      var last := docs[|docs| - 1];
      Blocks(docs[..|docs| - 1]) + Block(|docs|, last.0, last.1)
  }

  /** The prompt `get_rag_prompt` builds: the header, then one block per document. */
  function RagPrompt(question: string, docs: seq<(Option<string>, string)>): string
  {
    Header(question) + Blocks(docs)
  }

  /** `get_rag_prompt`: grows the prompt one document block at a time. */
  method GetRagPrompt(question: string, docs: seq<(Option<string>, string)>) returns (prompt: string)
    ensures prompt == RagPrompt(question, docs)
  {
    prompt := Header(question);
    var i := 0;
    while i < |docs|
      invariant 0 <= i <= |docs|
      invariant prompt == Header(question) + Blocks(docs[..i])
    {
      var (title, text) := docs[i];
      ghost var before := Blocks(docs[..i]);
      prompt := prompt + Block(i + 1, title, text);
      BlocksSnoc(docs, i);
      AppendAssoc(Header(question), before, Block(i + 1, title, text));
      i := i + 1;
    }
    assert docs[..i] == docs;
  }

  lemma AppendAssoc<T>(a: seq<T>, b: seq<T>, c: seq<T>)
    ensures (a + b) + c == a + (b + c)
  {
  }

  /** The prompt starts with the header carrying the question. */
  lemma RagPromptStartsWithHeader(question: string, docs: seq<(Option<string>, string)>)
    ensures Header(question) <= RagPrompt(question, docs)
    ensures |RagPrompt(question, docs)| >= |Header(question)|
  {
  }

  /** With no documents the prompt is exactly the header. */
  lemma RagPromptNoDocuments(question: string)
    ensures RagPrompt(question, []) == Header(question)
  {
  }

  /** The blocks of a prefix of the documents are a prefix of all blocks. */
  lemma {:induction false} BlocksOfPrefix(docs: seq<(Option<string>, string)>, i: nat)
    requires i <= |docs|
    ensures Blocks(docs[..i]) <= Blocks(docs)
    decreases |docs| - i
  {
    if i < |docs| {
      BlocksOfPrefix(docs, i + 1);
      BlocksSnoc(docs, i);
      PrefixOfPrefix(Blocks(docs[..i]), Block(i + 1, docs[i].0, docs[i].1), Blocks(docs));
    } else {
      assert docs[..i] == docs;
    }
  }

  /** One more document adds its block at the end. */
  lemma BlocksSnoc(docs: seq<(Option<string>, string)>, i: nat)
    requires i < |docs|
    ensures Blocks(docs[..i + 1]) == Blocks(docs[..i]) + Block(i + 1, docs[i].0, docs[i].1)
  {
    var p := docs[..i + 1];
    assert p[..|p| - 1] == docs[..i];
  }

  lemma PrefixOfPrefix<T>(a: seq<T>, b: seq<T>, c: seq<T>)
    requires a + b <= c
    ensures a <= c
  {
    assert a == (a + b)[..|a|];
  }

  /**
   * Document i (from 0) appears in input order as block number i + 1, right after the
   * header and the blocks of the documents before it, with its own title and text.
   */
  lemma RagPromptBlock(question: string, docs: seq<(Option<string>, string)>, i: nat)
    requires i < |docs|
    ensures Header(question) + Blocks(docs[..i]) + Block(i + 1, docs[i].0, docs[i].1) <= RagPrompt(question, docs)
  {
    BlocksOfPrefix(docs, i + 1);
    BlocksSnoc(docs, i);
    var h, b, k := Header(question), Blocks(docs[..i]), Block(i + 1, docs[i].0, docs[i].1);
    AppendAssoc(h, b, k);
    PrefixExtend(h, b + k, Blocks(docs));
  }

  lemma PrefixExtend<T>(h: seq<T>, a: seq<T>, b: seq<T>)
    requires a <= b
    ensures h + a <= h + b
  {
    assert h + b == (h + a) + b[|a|..];
  }
}
