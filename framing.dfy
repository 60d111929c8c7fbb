/** The NDJSON frame decoder of the chat client's stream loops (App.tsx,
    `handleChatSend` and `handleInterruptSubmit`): a text buffer that each
    decoded chunk is appended to; on every chunk the buffer is cut at its LAST
    line feed, the part before it is split into lines, blank lines are
    dropped, and the part after it stays buffered. At end of stream the
    buffered remainder is dropped without being emitted. */
module Framing {
  import opened Text

  /** `line.trim() !== ''`: by `TrimEmptyIffBlank`, the line has a character
      that is not whitespace. */
  predicate HasContent(line: string) {
    !IsBlank(line)
  }

  /** No line of `lines` holds a line feed. */
  predicate NoLineFeeds(lines: seq<string>) {
    forall k :: 0 <= k < |lines| ==> Lacks(lines[k], '\n')
  }

  /** Every line of `lines` has content. */
  predicate AllHaveContent(lines: seq<string>) {
    forall k :: 0 <= k < |lines| ==> HasContent(lines[k])
  }

  /** `lines.filter(line => line.trim() !== '')`. */
  function NonBlankLines(lines: seq<string>): (kept: seq<string>)
    ensures |kept| <= |lines|
    ensures AllHaveContent(kept)
  {
    if lines == [] then []
    else (if HasContent(lines[0]) then [lines[0]] else []) + NonBlankLines(lines[1..])
  }

  /** The filter introduces no line feed. */
  lemma {:induction false} NonBlankLinesShape(lines: seq<string>)
    ensures NoLineFeeds(lines) ==> NoLineFeeds(NonBlankLines(lines))
  {
    if lines != [] {
      NonBlankLinesShape(lines[1..]);
      var head := if HasContent(lines[0]) then [lines[0]] else [];
      var kept := NonBlankLines(lines);
      assert kept == head + NonBlankLines(lines[1..]);
      if NoLineFeeds(lines) {
        assert Lacks(lines[0], '\n');
        forall k | 0 <= k < |lines[1..]| ensures Lacks(lines[1..][k], '\n') {
          assert lines[1..][k] == lines[k + 1];
        }
      }
    }
  }

  /** Filtering a concatenation filters each part, in order. */
  lemma {:induction false} NonBlankLinesAppend(a: seq<string>, b: seq<string>)
    ensures NonBlankLines(a + b) == NonBlankLines(a) + NonBlankLines(b)
  {
    if a != [] {
      assert (a + b)[1..] == a[1..] + b;
      NonBlankLinesAppend(a[1..], b);
    } else {
      assert a + b == b;
    }
  }

  /** Filtering keeps every line that has content, untrimmed and in order. */
  lemma {:induction false} NonBlankLinesKeepsText(lines: seq<string>)
    requires AllHaveContent(lines)
    ensures NonBlankLines(lines) == lines
  {
    if lines != [] {
      NonBlankLinesKeepsText(lines[1..]);
      assert lines == [lines[0]] + lines[1..];
    }
  }

  /** The pieces of `s` between line feeds that have been terminated: every
      piece of `s.split('\n')` but the last. */
  function TerminatedPieces(s: string): (pieces: seq<string>)
    ensures |pieces| == |Split(s, '\n')| - 1
  {
    var all := Split(s, '\n');
    all[..|all| - 1]
  }

  /** Everything the decoder emits for the text `s` seen so far: the lines of
      `s` before its last line feed that are not blank, in order and
      untrimmed. Nothing after the last line feed is part of it. */
  function CompleteLines(s: string): seq<string> {
    NonBlankLines(TerminatedPieces(s))
  }

  /** What stays buffered after the text `s`: everything after its last line
      feed, or all of `s` when it has none. */
  function Remainder(s: string): (rest: string)
    ensures Lacks(rest, '\n')
  {
    var all := Split(s, '\n');
    all[|all| - 1]
  }

  /** The pieces of `s` are its terminated pieces followed by its remainder. */
  lemma PiecesOf(s: string)
    ensures Split(s, '\n') == TerminatedPieces(s) + [Remainder(s)]
  {
  }

  /** Every emitted line holds no line feed and is not blank. */
  lemma CompleteLinesShape(s: string)
    ensures NoLineFeeds(CompleteLines(s)) && AllHaveContent(CompleteLines(s))
  {
    NonBlankLinesShape(TerminatedPieces(s));
  }

  /** The decoder cuts its buffer at the last line feed: the pieces before
      that line feed are the terminated pieces, the text after it is the
      remainder, and a text with no line feed is all remainder. */
  lemma CutAtLastLineFeed(s: string)
    ensures LastIndexOf(s, '\n') == -1 ==> TerminatedPieces(s) == [] && Remainder(s) == s
    ensures LastIndexOf(s, '\n') >= 0 ==>
      var b := LastIndexOf(s, '\n');
      TerminatedPieces(s) == Split(s[..b], '\n') && Remainder(s) == s[b + 1..]
  {
    SplitAtLast(s, '\n');
  }

  /** The decoder loses nothing but blank lines: the text seen so far is the
      join of its terminated pieces, each followed by a line feed, and the
      remainder. */
  lemma FramingPartition(s: string)
    ensures Join(TerminatedPieces(s) + [Remainder(s)], '\n') == s
  {
    PiecesOf(s);
    JoinSplit(s, '\n');
  }

  /** One decoder step, stated on the whole text: feeding `chunk` after
      `consumed` emits the complete lines of the buffered remainder plus the
      chunk, and leaves that text's remainder buffered. */
  lemma FeedStep(consumed: string, chunk: string)
    ensures CompleteLines(consumed + chunk) == CompleteLines(consumed) + CompleteLines(Remainder(consumed) + chunk)
    ensures Remainder(consumed + chunk) == Remainder(Remainder(consumed) + chunk)
  {
    SplitAppend(consumed, chunk, '\n');
    var a := TerminatedPieces(consumed);
    var q := Split(Remainder(consumed) + chunk, '\n');
    assert TerminatedPieces(consumed + chunk) == a + q[..|q| - 1];
    NonBlankLinesAppend(a, q[..|q| - 1]);
  }

  /** An unterminated tail is never emitted: appending text without a line
      feed emits nothing new. */
  lemma UnterminatedTailDropped(s: string, tail: string)
    requires Lacks(tail, '\n')
    ensures CompleteLines(s + tail) == CompleteLines(s)
  {
    FeedStep(s, tail);
    var t := Remainder(s) + tail;
    forall i | 0 <= i < |t| ensures t[i] != '\n' {
      if i >= |Remainder(s)| {
        assert t[i] == tail[i - |Remainder(s)|];
      }
    }
    SplitNoSeparator(t, '\n');
  }

  /** The decoder emits the same lines as splitting the whole text and
      dropping blank lines exactly when the unterminated tail is blank, as it
      is for a stream that ends with a line feed. */
  lemma SplitWholeIffBlankTail(s: string)
    ensures CompleteLines(s) == NonBlankLines(Split(s, '\n')) <==> IsBlank(Remainder(s))
  {
    PiecesOf(s);
    NonBlankLinesAppend(TerminatedPieces(s), [Remainder(s)]);
    assert [Remainder(s)][1..] == [];
  }

  /** A line with content, a line feed and an unterminated tail (the stream
      `line1\nline2`, say) emit the first line only and buffer the tail. */
  lemma OneCompleteLine(line: string, tail: string)
    requires Lacks(line, '\n') && Lacks(tail, '\n') && HasContent(line)
    ensures CompleteLines(line + ['\n'] + tail) == [line]
    ensures Remainder(line + ['\n'] + tail) == tail
  {
    SplitAround(line, '\n', tail);
    SplitNoSeparator(line, '\n');
    SplitNoSeparator(tail, '\n');
    assert TerminatedPieces(line + ['\n'] + tail) == [line];
  }

  /** The concatenation of a stream's chunks, in arrival order. */
  function Concat(chunks: seq<string>): string {
    if chunks == [] then [] else Concat(chunks[..|chunks| - 1]) + chunks[|chunks| - 1]
  }

  /** The decoder state of one stream: `let buffer = ''` and the statements
      that reassign it. The ghost fields record everything fed and emitted so
      far, for the specification. */
  class LineDecoder {
    var buffer: string
    ghost var consumed: string
    ghost var emitted: seq<string>

    ghost predicate Valid()
      reads this
    {
      && buffer == Remainder(consumed)
      && emitted == CompleteLines(consumed)
    }

    constructor ()
      ensures Valid()
      ensures buffer == [] && consumed == [] && emitted == []
    {
      buffer := [];
      consumed := [];
      emitted := [];
    }

    /** Appends one decoded chunk and returns the lines it completed. Either
        the text buffered so far has no line feed and nothing is emitted, or
        the new buffer is the text after its last line feed. Either way the
        new buffer holds no line feed. */
    method Feed(chunk: string) returns (lines: seq<string>)
      requires Valid()
      modifies this
      ensures Valid()
      ensures consumed == old(consumed) + chunk
      ensures emitted == old(emitted) + lines
      ensures Lacks(buffer, '\n')
      ensures LastIndexOf(old(buffer) + chunk, '\n') == -1 ==> lines == [] && buffer == old(buffer) + chunk
      ensures LastIndexOf(old(buffer) + chunk, '\n') >= 0 ==>
        buffer == (old(buffer) + chunk)[LastIndexOf(old(buffer) + chunk, '\n') + 1..]
      ensures buffer == Remainder(old(buffer) + chunk)
      ensures lines == CompleteLines(old(buffer) + chunk)
    {
      buffer := buffer + chunk;
      var boundary := LastIndexOf(buffer, '\n');
      if boundary != -1 {
        var completeChunk := buffer[..boundary];
        buffer := buffer[boundary + 1..];
        lines := NonBlankLines(Split(completeChunk, '\n'));
      } else {
        lines := [];
      }
      CutAtLastLineFeed(old(buffer) + chunk);
      FeedStep(consumed, chunk);
      consumed := consumed + chunk;
      emitted := emitted + lines;
    }
  }

  /** Runs a decoder over a whole stream and collects what it emits. The
      result depends only on the concatenated text, never on where the chunk
      boundaries fall: it is the non-blank lines of the text before its final
      line feed; the unterminated tail is dropped at end of stream. */
  method DecodeStream(chunks: seq<string>) returns (lines: seq<string>)
    ensures lines == CompleteLines(Concat(chunks))
  {
    var decoder := new LineDecoder();
    lines := [];
    var i := 0;
    while i < |chunks|
      invariant 0 <= i <= |chunks|
      invariant decoder.Valid()
      invariant decoder.consumed == Concat(chunks[..i])
      invariant decoder.emitted == lines
    {
      var parts := decoder.Feed(chunks[i]);
      lines := lines + parts;
      assert chunks[..i + 1][..i] == chunks[..i];
      i := i + 1;
    }
    assert chunks[..i] == chunks;
  }
}
