/** The Ollama text generator: it composes the prompt from the retrieved
    context and the question, posts it to `{base_url}/api/generate` with
    streaming on, and relays the backend's lines to the caller as raw bytes,
    each followed by a newline. Lines are forwarded as they are: they are not
    decoded or inspected.

    The HTTP call is an oracle `post` from a request to a streamed reply;
    `json.dumps({"error": text}).encode()` is the parameter `errorPayload`. */
module Generation {
  import opened Wrappers
  import PyStr

  newtype byte = x: int | 0 <= x < 256
  type Bytes = seq<byte>

  const NEWLINE: byte := 10
  const DEFAULT_BASE_URL := "http://localhost:11434"
  const DEFAULT_MODEL := "llama3"
  const MAX_TOKENS := 512
  const PROMPT_HEAD := "Context:\n"
  const PROMPT_MIDDLE := "\n\nQuestion:\n"
  const PROMPT_TAIL := "\n\nAnswer concisely and cite relevant context extracts."

  /** The JSON payload posted to the backend, with the URL it goes to. */
  datatype GenerateRequest = GenerateRequest(
    url: string, model: string, prompt: string, maxTokens: int, temperature: real, stream: bool)

  /** The streamed reply: its status, its body as text (read only when the
      status is not 200) and the lines `iter_lines` splits the body into. */
  datatype StreamReply = StreamReply(status: int, text: string, lines: seq<Bytes>)

  /** `_build_prompt(context, question)`: the fixed template around the two
      strings. */
  function BuildPrompt(context: string, question: string): (p: string)
    ensures |p| == |PROMPT_HEAD| + |context| + |PROMPT_MIDDLE| + |question| + |PROMPT_TAIL|
    ensures p[..|PROMPT_HEAD|] == PROMPT_HEAD
    ensures p[|PROMPT_HEAD|..|PROMPT_HEAD| + |context|] == context
    ensures p[|PROMPT_HEAD| + |context|..|PROMPT_HEAD| + |context| + |PROMPT_MIDDLE|] == PROMPT_MIDDLE
    ensures p[|PROMPT_HEAD| + |context| + |PROMPT_MIDDLE|..|p| - |PROMPT_TAIL|] == question
    ensures p[|p| - |PROMPT_TAIL|..] == PROMPT_TAIL
  {
    PROMPT_HEAD + context + PROMPT_MIDDLE + question + PROMPT_TAIL
  }

  /** Reads the context and the question back out of a prompt, given the
      length of the context. */
  function PromptFields(p: string, contextLength: nat): (string, string)
    requires |PROMPT_HEAD| + contextLength + |PROMPT_MIDDLE| + |PROMPT_TAIL| <= |p|
  {
    var start := |PROMPT_HEAD| + contextLength + |PROMPT_MIDDLE|;
    (p[|PROMPT_HEAD|..|PROMPT_HEAD| + contextLength], p[start..|p| - |PROMPT_TAIL|])
  }

  /** Each string stands in the prompt verbatim, in its place in the template:
      knowing the context's length, both come back out. */
  lemma PromptRoundTrip(context: string, question: string)
    ensures PromptFields(BuildPrompt(context, question), |context|) == (context, question)
  {
    var p := BuildPrompt(context, question);
    var h := |PROMPT_HEAD|;
    var m := |PROMPT_MIDDLE|;
    assert p[h..h + |context|] == context;
    assert p[h + |context| + m..|p| - |PROMPT_TAIL|] == question;
  }

  /** Without that length the template is ambiguous: a context that itself
      holds the question header gives the same prompt as another split, for
      example "a\n\nQuestion:\nb" with "c" and "a" with "b\n\nQuestion:\nc". */
  lemma PromptAmbiguous(x: string, y: string, z: string)
    ensures BuildPrompt(x + PROMPT_MIDDLE + y, z) == BuildPrompt(x, y + PROMPT_MIDDLE + z)
  {
    var h, m := PROMPT_HEAD, PROMPT_MIDDLE;
    Associative(h, x + m, y);
    Associative(h, x, m);
    Associative(h + x + m, y + m, z);
    Associative(h + x + m, y, m);
  }

  lemma Associative(a: string, b: string, c: string)
    ensures a + (b + c) == a + b + c
  {
  }

  /** `chunk + b"\n"` */
  function Frame(line: Bytes): Bytes {
    line + [NEWLINE]
  }

  /** What the relay loop yields for `lines`: nothing for an empty line, the
      framed line for any other, in order. */
  function Relay(lines: seq<Bytes>): seq<Bytes>
    decreases |lines|
  {
    if lines == [] then []
    else
      var last := lines[|lines| - 1];
      Relay(lines[..|lines| - 1]) + (if last == [] then [] else [Frame(last)])
  }

  /** The non-empty lines of `lines`, in order. */
  function NonEmpty(lines: seq<Bytes>): (r: seq<Bytes>)
    ensures forall k :: 0 <= k < |r| ==> r[k] != [] && r[k] in lines
    ensures |r| <= |lines|
    decreases |lines|
  {
    if lines == [] then []
    else (if lines[0] == [] then [] else [lines[0]]) + NonEmpty(lines[1..])
  }

  /** Frames every line. */
  function FrameAll(lines: seq<Bytes>): (r: seq<Bytes>)
    ensures |r| == |lines|
  {
    seq(|lines|, k requires 0 <= k < |lines| => Frame(lines[k]))
  }

  /** Undoes the framing: drops the last byte of every output. */
  function Unframe(out: seq<Bytes>): (r: seq<Bytes>)
    ensures |r| == |out|
  {
    seq(|out|, k requires 0 <= k < |out| => if out[k] == [] then [] else out[k][..|out[k]| - 1])
  }

  /** The concatenation of a sequence of byte strings: the body a caller reads. */
  function Concat(out: seq<Bytes>): Bytes
    decreases |out|
  {
    if out == [] then [] else out[0] + Concat(out[1..])
  }

  lemma {:induction false} NonEmptyAppend(a: seq<Bytes>, b: seq<Bytes>)
    ensures NonEmpty(a + b) == NonEmpty(a) + NonEmpty(b)
    decreases |a|
  {
    if a != [] {
      assert (a + b)[0] == a[0];
      assert (a + b)[1..] == a[1..] + b;
      NonEmptyAppend(a[1..], b);
    } else {
      assert a + b == b;
    }
  }

  /** The relay is the map of the framing over the filter of the non-empty
      lines. */
  lemma {:induction false} RelayIsMapOfFilter(lines: seq<Bytes>)
    ensures Relay(lines) == FrameAll(NonEmpty(lines))
    decreases |lines|
  {
    if lines != [] {
      var init := lines[..|lines| - 1];
      var last := lines[|lines| - 1];
      RelayIsMapOfFilter(init);
      assert lines == init + [last];
      NonEmptyAppend(init, [last]);
      assert NonEmpty([last]) == if last == [] then [] else [last];
    }
  }

  /** The relay streams: the output for a longer stream extends the output for
      its prefix, so nothing is reordered or held back. */
  lemma {:induction false} RelayAppend(a: seq<Bytes>, b: seq<Bytes>)
    ensures Relay(a + b) == Relay(a) + Relay(b)
    decreases |b|
  {
    if b == [] {
      assert a + b == a;
    } else {
      var init := b[..|b| - 1];
      assert (a + b)[..|a + b| - 1] == a + init;
      assert (a + b)[|a + b| - 1] == b[|b| - 1];
      RelayAppend(a, init);
    }
  }

  /** Every output is a non-empty input line followed by a newline; removing
      the newlines gives back exactly the non-empty lines, in order. */
  lemma RelayUnframes(lines: seq<Bytes>)
    ensures forall k :: 0 <= k < |Relay(lines)| ==>
      |Relay(lines)[k]| >= 2 && Relay(lines)[k][|Relay(lines)[k]| - 1] == NEWLINE
    ensures Unframe(Relay(lines)) == NonEmpty(lines)
    ensures |Relay(lines)| == |NonEmpty(lines)|
  {
    RelayIsMapOfFilter(lines);
    var ne := NonEmpty(lines);
    forall k | 0 <= k < |ne| ensures Unframe(FrameAll(ne))[k] == ne[k] {
      assert Frame(ne[k])[..|ne[k]|] == ne[k];
    }
  }

  /** An empty line anywhere in the stream yields nothing. */
  lemma RelaySkipsEmpty(a: seq<Bytes>, b: seq<Bytes>)
    ensures Relay(a + [[]] + b) == Relay(a + b)
  {
    RelayAppend(a + [[]], b);
    RelayAppend(a, [[]]);
    RelayAppend(a, b);
    var empty: seq<Bytes> := [[]];
    assert empty[..0] == [];
  }

  /** Splits a body into its newline-terminated records, as a consumer that
      re-splits the stream does; bytes after the last newline are a record of
      their own. */
  function SplitRecords(body: Bytes): seq<Bytes>
    decreases |body|
  {
    if body == [] then []
    else if NEWLINE !in body then [body]
    else
      var k := IndexOf(body, NEWLINE);
      [body[..k]] + SplitRecords(body[k + 1..])
  }

  /** The position of the first `x` in `s`. */
  function IndexOf(s: Bytes, x: byte): (k: nat)
    requires x in s
    ensures k < |s| && s[k] == x && x !in s[..k]
  {
    if s[0] == x then 0 else 1 + IndexOf(s[1..], x)
  }

  /** A consumer that splits the relayed body at newlines reads back exactly
      the non-empty lines, in order, provided no line holds a newline (which
      `iter_lines` guarantees). */
  lemma {:induction false} ResplitFramed(xs: seq<Bytes>)
    requires forall k :: 0 <= k < |xs| ==> NEWLINE !in xs[k]
    ensures SplitRecords(Concat(FrameAll(xs))) == xs
    decreases |xs|
  {
    if xs != [] {
      var rest := xs[1..];
      assert FrameAll(xs)[1..] == FrameAll(rest);
      assert Concat(FrameAll(xs)) == xs[0] + [NEWLINE] + Concat(FrameAll(rest));
      ResplitFramed(rest);
      SplitAtNewline(xs[0], Concat(FrameAll(rest)));
    }
  }

  /** A record without a newline, its newline, and the rest: splitting takes
      the record off the front. */
  lemma SplitAtNewline(x: Bytes, rest: Bytes)
    requires NEWLINE !in x
    ensures SplitRecords(x + [NEWLINE] + rest) == [x] + SplitRecords(rest)
  {
    var body := x + [NEWLINE] + rest;
    assert body[|x|] == NEWLINE;
    var k := IndexOf(body, NEWLINE);
    assert body[..k] == x;
    assert body[k + 1..] == rest;
  }

  /** The relay end to end: re-splitting what it sends gives the backend's
      non-empty lines back. */
  lemma RelayResplits(lines: seq<Bytes>)
    requires forall k :: 0 <= k < |lines| ==> NEWLINE !in lines[k]
    ensures SplitRecords(Concat(Relay(lines))) == NonEmpty(lines)
  {
    RelayIsMapOfFilter(lines);
    ResplitFramed(NonEmpty(lines));
  }

  class OllamaGenerator {
    const baseUrl: string
    const model: string

    /** `__init__(base_url, model)`: an omitted argument (`None`) takes its
        default; the base URL is kept without trailing slashes. */
    constructor (baseUrl: Option<string>, model: Option<string>)
      ensures baseUrl.Some? ==> this.baseUrl == PyStr.RStrip(baseUrl.value, '/')
      ensures baseUrl.None? ==> this.baseUrl == "http://localhost:11434"
      ensures this.baseUrl == [] || this.baseUrl[|this.baseUrl| - 1] != '/'
      ensures model.Some? ==> this.model == model.value
      ensures model.None? ==> this.model == "llama3"
    {
      var url := if baseUrl.Some? then baseUrl.value else DEFAULT_BASE_URL;
      this.baseUrl := PyStr.RStrip(url, '/');
      this.model := if model.Some? then model.value else DEFAULT_MODEL;
    }

    /** The request `stream_response` sends. */
    function Payload(context: string, question: string): (req: GenerateRequest)
      ensures req.url == baseUrl + "/api/generate" && req.model == model
      ensures req.prompt == BuildPrompt(context, question)
      ensures req.maxTokens == 512 && req.temperature == 0.0 && req.stream
    {
      GenerateRequest(baseUrl + "/api/generate", model, BuildPrompt(context, question), MAX_TOKENS, 0.0, true)
    }

    /** `stream_response(context, question)`: the sequence of byte strings the
        generator yields. On a status other than 200 it is the one error
        payload; otherwise it is the relay of the reply's lines. */
    method StreamResponse(post: GenerateRequest -> StreamReply, errorPayload: string -> Bytes,
                          context: string, question: string)
      returns (out: seq<Bytes>)
      ensures var reply := post(Payload(context, question));
        out == if reply.status != 200 then [errorPayload(reply.text)] else Relay(reply.lines)
    {
      var prompt := BuildPrompt(context, question);
      var r := post(GenerateRequest(baseUrl + "/api/generate", model, prompt, MAX_TOKENS, 0.0, true));
      if r.status != 200 {
        out := [errorPayload(r.text)];
        return;
      }
      out := [];
      for i := 0 to |r.lines|
        invariant out == Relay(r.lines[..i])
      {
        var chunk := r.lines[i];
        assert r.lines[..i + 1][..i] == r.lines[..i];
        if chunk == [] {
          continue;
        }
        out := out + [chunk + [NEWLINE]];
      }
      assert r.lines[..|r.lines|] == r.lines;
    }
  }
}
