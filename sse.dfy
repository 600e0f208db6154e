/**
 * Server-sent-event framing shared by both servers' event streams: every event is a block
 * of lines closed by a blank line, so a stream is the concatenation of `body + "\n\n"`
 * frames, and a client recovers the bodies by cutting the stream at "\n\n".
 */
module Sse {
  import opened Text

  const Blank := "\n\n"

  predicate NewlineFree(s: string) {
    forall k :: 0 <= k < |s| ==> s[k] != '\n'
  }

  /** No two consecutive line breaks, and no line break at the end: such a body cannot
      contain, or run into, the blank line that closes its frame. */
  predicate NoBlankLine(s: string) {
    (forall k :: 0 <= k < |s| - 1 ==> !(s[k] == '\n' && s[k + 1] == '\n'))
    && (|s| == 0 || s[|s| - 1] != '\n')
  }

  /** One event: its body followed by the blank line. */
  function Frame(body: string): string {
    body + Blank
  }

  /** What a client receives: the frames one after another. */
  function Concat(frames: seq<string>): string
    decreases |frames|
  {
    if |frames| == 0 then "" else frames[0] + Concat(frames[1..])
  }

  function Frames(bodies: seq<string>): (r: seq<string>)
    ensures |r| == |bodies|
    ensures forall i :: 0 <= i < |bodies| ==> r[i] == Frame(bodies[i])
  {
    seq(|bodies|, i requires 0 <= i < |bodies| => Frame(bodies[i]))
  }

  /** A FastAPI status frame: `"data: " + payload + "\n\n"`. */
  function DataBody(payload: string): string {
    "data: " + payload
  }

  function DataBodies(payloads: seq<string>): (r: seq<string>)
    ensures |r| == |payloads|
    ensures forall i :: 0 <= i < |payloads| ==> r[i] == DataBody(payloads[i])
  {
    seq(|payloads|, i requires 0 <= i < |payloads| => DataBody(payloads[i]))
  }

  /** Two blank-line-free parts joined by a single line break are blank-line free, as long as
      the second part does not start with a line break. */
  lemma JoinLinesNoBlank(a: string, b: string)
    requires NoBlankLine(a) && NoBlankLine(b) && |b| > 0 && b[0] != '\n'
    ensures NoBlankLine(a + "\n" + b)
  {
    var s := a + "\n" + b;
    forall k | 0 <= k < |s| - 1
      ensures !(s[k] == '\n' && s[k + 1] == '\n')
    {
      if k + 1 < |a| {
        assert s[k] == a[k] && s[k + 1] == a[k + 1];
      } else if k + 1 == |a| {
        assert s[k] == a[k];
      } else if k == |a| {
        assert s[k + 1] == b[0];
      } else {
        assert s[k] == b[k - |a| - 1] && s[k + 1] == b[k - |a|];
      }
    }
    assert s[|s| - 1] == b[|b| - 1];
  }

  /** A blank-line-free body is cut off exactly at the blank line that closes its frame. */
  lemma NoBlankLineClean(x: string)
    requires NoBlankLine(x)
    ensures Clean(x, Blank)
  {
    var y := x + Blank;
    forall j | 0 <= j < |x|
      ensures !OccursAt(y, Blank, j)
    {
      if j + 1 < |x| {
        assert y[j] == x[j] && y[j + 1] == x[j + 1];
      } else {
        assert y[j] == x[j];
      }
      assert !(y[j] == '\n' && y[j + 1] == '\n');
      assert y[j..j + 2][0] == y[j] && y[j..j + 2][1] == y[j + 1];
    }
  }

  lemma {:induction false} ConcatFramesJoin(bodies: seq<string>)
    ensures Concat(Frames(bodies)) == Join(bodies + [""], Blank)
    decreases |bodies|
  {
    if |bodies| > 0 {
      var rest := bodies[1..];
      ConcatFramesJoin(rest);
      assert Frames(bodies)[1..] == Frames(rest);
      assert bodies + [""] == [bodies[0]] + (rest + [""]);
      JoinCons(bodies[0], rest + [""], Blank);
    }
  }

  /** Cutting a stream of frames at each blank line gives back every body in order, and an
      empty remainder after the last frame. */
  lemma StreamSplit(bodies: seq<string>)
    requires forall i :: 0 <= i < |bodies| ==> NoBlankLine(bodies[i])
    ensures Split(Concat(Frames(bodies)), Blank) == bodies + [""]
  {
    ConcatFramesJoin(bodies);
    var q := bodies + [""];
    forall k | 0 <= k < |q| - 1
      ensures Clean(q[k], Blank)
    {
      NoBlankLineClean(bodies[k]);
    }
    assert !Contains("", Blank);
    SplitJoin(q, Blank);
  }

  /** The FastAPI stream of newline-free payloads splits back into its `data:` lines. */
  lemma DataStreamSplit(payloads: seq<string>)
    requires forall i :: 0 <= i < |payloads| ==> NewlineFree(payloads[i])
    ensures Split(Concat(Frames(DataBodies(payloads))), Blank) == DataBodies(payloads) + [""]
  {
    var bodies := DataBodies(payloads);
    forall i | 0 <= i < |bodies|
      ensures NoBlankLine(bodies[i])
    {
      assert NewlineFree(payloads[i]);
      assert bodies[i] == "data: " + payloads[i];
    }
    StreamSplit(bodies);
  }
}
