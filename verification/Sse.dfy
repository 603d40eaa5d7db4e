/**
 * Reading a server-sent event stream: text arrives in arbitrary chunks and is cut into
 * frames at blank lines, after CR LF line ends are rewritten to LF in the buffer.
 */
module Sse {

  // ----- line ends

  /** Every CR LF, from the left, becomes LF. */
  function Norm(s: string): string {
    if s == "" then ""
    else if |s| >= 2 && s[0] == '\r' && s[1] == '\n' then "\n" + Norm(s[2..])
    else [s[0]] + Norm(s[1..])
  }

  ghost predicate CrLfAt(s: string, i: int) {
    0 <= i < |s| - 1 && s[i] == '\r' && s[i + 1] == '\n'
  }

  ghost predicate HasCrLf(s: string) {
    exists i :: CrLfAt(s, i)
  }

  ghost predicate CrCrLfAt(s: string, i: int) {
    0 <= i < |s| - 2 && s[i] == '\r' && s[i + 1] == '\r' && s[i + 2] == '\n'
  }

  ghost predicate HasCrCrLf(s: string) {
    exists i :: CrCrLfAt(s, i)
  }

  // ----- cutting at blank lines

  predicate BreakAt(s: string, i: int) {
    0 <= i < |s| - 1 && s[i] == '\n' && s[i + 1] == '\n'
  }

  ghost predicate HasBreak(s: string) {
    exists i :: BreakAt(s, i)
  }

  /** Where the first LF LF starts, or -1. */
  function FirstBreak(s: string): (sep: int)
    ensures -1 <= sep && sep < |s|
    ensures sep >= 0 ==> sep + 2 <= |s|
  {
    if |s| < 2 then -1
    else if BreakAt(s, 0) then 0
    else
      var sep := FirstBreak(s[1..]);
      if sep == -1 then -1 else sep + 1
  }

  lemma {:induction false} FirstBreakIsFirst(s: string)
    ensures var sep := FirstBreak(s);
            && (sep == -1 <==> !HasBreak(s))
            && (sep >= 0 ==> BreakAt(s, sep) && forall i :: BreakAt(s, i) ==> sep <= i)
  {
    if |s| >= 2 && !BreakAt(s, 0) {
      FirstBreakIsFirst(s[1..]);
      var sep := FirstBreak(s[1..]);
      assert forall i :: BreakAt(s, i) ==> BreakAt(s[1..], i - 1);
      assert sep >= 0 ==> BreakAt(s, sep + 1);
    }
  }

  /** Complete frames and the unfinished rest of the buffer. */
  datatype State = State(frames: seq<string>, rest: string)

  function Cut(s: string): State
    decreases |s|
  {
    var sep := FirstBreak(s);
    if sep == -1 then State([], s)
    else
      var more := Cut(s[sep + 2..]);
      State([s[..sep]] + more.frames, more.rest)
  }

  /** The state after one more chunk of text. */
  function Feed(state: State, chunk: string): State {
    var cut := Cut(Norm(state.rest + chunk));
    State(state.frames + cut.frames, cut.rest)
  }

  function Fed(chunks: seq<string>): State {
    if chunks == [] then State([], "") else Feed(Fed(chunks[..|chunks| - 1]), chunks[|chunks| - 1])
  }

  function Concat(chunks: seq<string>): string {
    if chunks == [] then "" else Concat(chunks[..|chunks| - 1]) + chunks[|chunks| - 1]
  }

  // ----- what reaches the caller

  /** White space and line terminators of the trimming rule. */
  predicate IsSpace(c: char) {
    || c == ' ' || c == '\t' || c == '\n' || c == '\r' || c == '\U{0B}' || c == '\U{0C}' || c == '\U{A0}'
    || c == '\U{1680}' || '\U{2000}' <= c <= '\U{200A}' || c == '\U{2028}' || c == '\U{2029}'
    || c == '\U{202F}' || c == '\U{205F}' || c == '\U{3000}' || c == '\U{FEFF}'
  }

  function Trim(s: string): string {
    if s != "" && IsSpace(s[0]) then Trim(s[1..])
    else if s != "" && IsSpace(s[|s| - 1]) then Trim(s[..|s| - 1])
    else s
  }

  function Dispatch(frame: string): seq<string> {
    if Trim(frame) != "" then [frame] else []
  }

  function Visible(frames: seq<string>): seq<string> {
    if frames == [] then [] else Visible(frames[..|frames| - 1]) + Dispatch(frames[|frames| - 1])
  }

  /** All frames handed to the caller: the non-blank ones and the trimmed tail. */
  function Emitted(state: State): seq<string> {
    Visible(state.frames) + if Trim(state.rest) != "" then [Trim(state.rest)] else []
  }

  lemma {:induction false} VisibleJoin(a: seq<string>, b: seq<string>)
    ensures Visible(a + b) == Visible(a) + Visible(b)
  {
    if b == [] {
      assert a + b == a;
    } else {
      assert (a + b)[..|a + b| - 1] == a + b[..|b| - 1];
      VisibleJoin(a, b[..|b| - 1]);
    }
  }

  lemma CutStep(s: string)
    requires FirstBreak(s) != -1
    ensures var more := Cut(s[FirstBreak(s) + 2..]);
            Cut(s) == State([s[..FirstBreak(s)]] + more.frames, more.rest)
  {}

  ghost predicate Draining(whole: State, cut: seq<string>, rest: string) {
    whole == State(cut + Cut(rest).frames, Cut(rest).rest)
  }

  lemma DrainStep(whole: State, cut: seq<string>, rest: string)
    requires Draining(whole, cut, rest) && FirstBreak(rest) != -1
    ensures Draining(whole, cut + [rest[..FirstBreak(rest)]], rest[FirstBreak(rest) + 2..])
  {
    CutStep(rest);
  }

  /** One drain of the buffer: cut off frames while there is a blank line. */
  method DrainCompleteFrames(buffer: string) returns (frames: seq<string>, rest: string)
    ensures frames == Visible(Cut(Norm(buffer)).frames) && rest == Cut(Norm(buffer)).rest
  {
    rest := Norm(buffer);
    frames := [];
    ghost var whole := Cut(rest);
    ghost var cut: seq<string> := [];
    assert [] + whole.frames == whole.frames;
    var sep := FirstBreak(rest);
    while sep != -1
      invariant sep == FirstBreak(rest)
      invariant frames == Visible(cut)
      invariant Draining(whole, cut, rest)
      decreases |rest|
    {
      DrainStep(whole, cut, rest);
      var frame := rest[..sep];
      rest := rest[sep + 2..];
      if Trim(frame) != "" {
        frames := frames + [frame];
      }
      VisibleSnoc(cut, frame);
      cut := cut + [frame];
      sep := FirstBreak(rest);
    }
    assert cut + [] == cut;
  }

  lemma VisibleSnoc(frames: seq<string>, frame: string)
    ensures Visible(frames + [frame]) == Visible(frames) + Dispatch(frame)
  {
    assert (frames + [frame])[..|frames|] == frames;
  }

  /** The whole read: `flush` is what the text decoder still holds when the stream ends. */
  method ConsumeSSE(chunks: seq<string>, flush: string) returns (emitted: seq<string>)
    ensures emitted == Emitted(Fed(chunks + [flush]))
  {
    var buffer := "";
    emitted := [];
    for i := 0 to |chunks|
      invariant emitted == Visible(Fed(chunks[..i]).frames) && buffer == Fed(chunks[..i]).rest
    {
      assert chunks[..i + 1][..i] == chunks[..i];
      VisibleJoin(Fed(chunks[..i]).frames, Cut(Norm(buffer + chunks[i])).frames);
      var frames: seq<string>;
      frames, buffer := DrainCompleteFrames(buffer + chunks[i]);
      emitted := emitted + frames;
    }
    assert chunks[..|chunks|] == chunks == (chunks + [flush])[..|chunks|];
    VisibleJoin(Fed(chunks).frames, Cut(Norm(buffer + flush)).frames);
    var frames: seq<string>;
    frames, buffer := DrainCompleteFrames(buffer + flush);
    emitted := emitted + frames;
    var tail := Trim(buffer);
    if tail != "" {
      emitted := emitted + [tail];
    }
  }

  // ----- line ends: laws

  lemma NormCrLf(s: string)
    requires CrLfAt(s, 0)
    ensures Norm(s) == "\n" + Norm(s[2..])
  {}

  lemma NormOther(s: string)
    requires s != "" && !CrLfAt(s, 0)
    ensures Norm(s) == [s[0]] + Norm(s[1..])
  {}

  lemma {:induction false} NormJoin(a: string, b: string)
    requires !CrLfAt(a + b, |a| - 1)
    ensures Norm(a + b) == Norm(a) + Norm(b)
    decreases |a|
  {
    if a == "" {
      assert a + b == b;
    } else if CrLfAt(a, 0) {
      NoSplit(a, b, 2);
      NormJoin(a[2..], b);
      NormCrLf(a);
      NormCrLfJoin(a, b);
    } else {
      NoSplit(a, b, 1);
      NormJoin(a[1..], b);
      NormOther(a);
      NormOtherJoin(a, b);
    }
  }

  lemma NoSplit(a: string, b: string, k: nat)
    requires k <= |a| && !CrLfAt(a + b, |a| - 1)
    ensures !CrLfAt(a[k..] + b, |a| - k - 1)
  {
    assert (a + b)[k..] == a[k..] + b;
    assert CrLfAt(a[k..] + b, |a| - k - 1) ==> CrLfAt(a + b, |a| - 1);
  }

  lemma NormCrLfJoin(a: string, b: string)
    requires CrLfAt(a, 0)
    ensures Norm(a + b) == "\n" + Norm(a[2..] + b)
  {
    assert (a + b)[2..] == a[2..] + b;
    NormCrLf(a + b);
  }

  lemma NormOtherJoin(a: string, b: string)
    requires a != "" && !CrLfAt(a, 0) && !CrLfAt(a + b, |a| - 1)
    ensures Norm(a + b) == [a[0]] + Norm(a[1..] + b)
  {
    assert (a + b)[1..] == a[1..] + b;
    NormOther(a + b);
  }

  lemma {:induction false} NormKeeps(s: string)
    requires !HasCrLf(s)
    ensures Norm(s) == s
  {
    if s != "" {
      assert forall i :: CrLfAt(s[1..], i) ==> CrLfAt(s, i + 1);
      assert !CrLfAt(s, 0);
      NormKeeps(s[1..]);
    }
  }

  lemma {:induction false} NormShrinks(s: string)
    ensures |Norm(s)| <= |s|
    ensures HasCrLf(s) ==> |Norm(s)| < |s|
    decreases |s|
  {
    if |s| >= 2 && s[0] == '\r' && s[1] == '\n' {
      NormShrinks(s[2..]);
    } else if s != "" {
      NormShrinks(s[1..]);
      if HasCrLf(s) {
        var i :| CrLfAt(s, i);
        assert CrLfAt(s[1..], i - 1);
      }
    }
  }

  /** How a normalized text starts. */
  lemma NormHead(s: string)
    ensures s != "" ==> Norm(s) != "" && Norm(s)[0] == if CrLfAt(s, 0) then '\n' else s[0]
  {}

  /** A CR LF is left over exactly where two CRs preceded the LF. */
  lemma {:induction false} NormLeavesCrLfIff(s: string)
    ensures HasCrLf(Norm(s)) <==> HasCrCrLf(s)
    decreases |s|
  {
    if s == "" {
    } else if CrLfAt(s, 0) {
      NormLeavesCrLfIff(s[2..]);
      assert forall i :: CrLfAt(Norm(s[2..]), i) <==> CrLfAt(Norm(s), i + 1) && i >= 0;
      assert forall i :: CrCrLfAt(s[2..], i) <==> CrCrLfAt(s, i + 2) && i >= 0;
      assert !CrLfAt(Norm(s), 0) && !CrCrLfAt(s, 0) && !CrCrLfAt(s, 1);
      ShiftedCrLf(Norm(s), Norm(s[2..]), 1);
      ShiftedCrCrLf(s, s[2..], 2);
    } else {
      NormLeavesCrLfIff(s[1..]);
      NormHead(s[1..]);
      assert CrLfAt(Norm(s), 0) <==> CrCrLfAt(s, 0);
      ShiftedCrLf(Norm(s), Norm(s[1..]), 1);
      ShiftedCrCrLf(s, s[1..], 1);
    }
  }

  lemma ShiftedCrLf(s: string, t: string, k: nat)
    requires k <= |s| && t == s[k..]
    ensures HasCrLf(s) <==> HasCrLf(t) || exists i :: 0 <= i < k && CrLfAt(s, i)
  {
    forall i | CrLfAt(t, i) ensures CrLfAt(s, i + k) {}
    forall i | CrLfAt(s, i) && i >= k ensures CrLfAt(t, i - k) {}
  }

  lemma ShiftedCrCrLf(s: string, t: string, k: nat)
    requires k <= |s| && t == s[k..]
    ensures HasCrCrLf(s) <==> HasCrCrLf(t) || exists i :: 0 <= i < k && CrCrLfAt(s, i)
  {
    forall i | CrCrLfAt(t, i) ensures CrCrLfAt(s, i + k) {}
    forall i | CrCrLfAt(s, i) && i >= k ensures CrCrLfAt(t, i - k) {}
  }

  /** Rewriting line ends twice is the same as once exactly when no CR CR LF occurs. */
  lemma NormTwiceIff(s: string)
    ensures Norm(Norm(s)) == Norm(s) <==> !HasCrCrLf(s)
  {
    NormLeavesCrLfIff(s);
    if HasCrLf(Norm(s)) {
      NormShrinks(Norm(s));
    } else {
      NormKeeps(Norm(s));
    }
  }

  /** Text already normalized can be extended as if it had not been. */
  lemma {:induction false} NormAbsorbs(p: string, c: string)
    requires !HasCrCrLf(p)
    ensures Norm(Norm(p) + c) == Norm(p + c)
    decreases |p|, 1
  {
    if p == "" {
      assert Norm(p) + c == p + c;
    } else if CrLfAt(p, 0) {
      ShiftedCrCrLf(p, p[2..], 2);
      NormAbsorbs(p[2..], c);
      NormCrLf(p);
      assert (p + c)[2..] == p[2..] + c;
      NormCrLf(p + c);
      var q := Norm(p) + c;
      assert q[1..] == Norm(p[2..]) + c;
      NormOther(q);
    } else {
      NormAbsorbsOther(p, c);
    }
  }

  lemma TailOfJoin(a: string, b: string)
    requires a != ""
    ensures (a + b)[1..] == a[1..] + b
  {}

  /** Where the first character is not part of a CR LF, normalizing before extension does not make one of it. */
  lemma SameHead(p: string, c: string)
    requires p != "" && !CrLfAt(p, 0) && !HasCrCrLf(p)
    ensures Norm(p) != "" && (CrLfAt(p + c, 0) <==> CrLfAt(Norm(p) + c, 0))
    ensures CrLfAt(p + c, 0) ==> Norm(p) == p
  {
    NormOther(p);
    NormHead(p[1..]);
    assert !CrCrLfAt(p, 0);
  }

  lemma NormAbsorbsOther(p: string, c: string)
    requires p != "" && !CrLfAt(p, 0) && !HasCrCrLf(p)
    ensures Norm(Norm(p) + c) == Norm(p + c)
    decreases |p|, 0
  {
    SameHead(p, c);
    if !CrLfAt(p + c, 0) {
      ShiftedCrCrLf(p, p[1..], 1);
      NormAbsorbs(p[1..], c);
      NormOther(p);
      TailOfJoin(p, c);
      TailOfJoin(Norm(p), c);
      NormOther(Norm(p) + c);
      NormOther(p + c);
    }
  }

  // ----- cutting: laws

  /** Frames glued back together with their blank lines. */
  function Joined(frames: seq<string>): string {
    if frames == [] then "" else frames[0] + "\n\n" + Joined(frames[1..])
  }

  /** A split of `s` at its blank lines, each as early as possible. */
  ghost predicate IsCut(s: string, state: State) {
    && s == Joined(state.frames) + state.rest
    && !HasBreak(state.rest)
    && forall f :: f in state.frames ==> !HasBreak(f + "\n")
  }

  lemma FirstFrame(s: string)
    requires FirstBreak(s) != -1
    ensures var sep := FirstBreak(s);
            s == s[..sep] + "\n\n" + s[sep + 2..] && !HasBreak(s[..sep] + "\n")
  {
    FirstBreakIsFirst(s);
    var sep := FirstBreak(s);
    forall i ensures !BreakAt(s[..sep] + "\n", i) {
      assert BreakAt(s[..sep] + "\n", i) ==> BreakAt(s, i);
    }
  }

  lemma {:induction false} CutIsCut(s: string)
    ensures IsCut(s, Cut(s))
    decreases |s|
  {
    if FirstBreak(s) == -1 {
      FirstBreakIsFirst(s);
    } else {
      var sep := FirstBreak(s);
      CutIsCut(s[sep + 2..]);
      FirstFrame(s);
      CutStep(s);
      FramedIsCut(s, s[..sep], s[sep + 2..], Cut(s[sep + 2..]));
    }
  }

  lemma FramedIsCut(s: string, f: string, t: string, more: State)
    requires s == f + "\n\n" + t && !HasBreak(f + "\n") && IsCut(t, more)
    ensures IsCut(s, State([f] + more.frames, more.rest))
  {
    assert ([f] + more.frames)[1..] == more.frames;
  }

  lemma FirstBreakOfFramed(f: string, t: string)
    requires !HasBreak(f + "\n")
    ensures FirstBreak(f + "\n\n" + t) == |f|
  {
    var s := f + "\n\n" + t;
    FirstBreakIsFirst(s);
    assert BreakAt(s, |f|);
    forall i | BreakAt(s, i) ensures i >= |f| {
      assert i < |f| ==> BreakAt(f + "\n", i);
    }
  }

  /** There is only one way to cut, and frames cut once stay cut whatever follows them. */
  lemma {:induction false} CutIsUnique(frames: seq<string>, t: string)
    requires forall f :: f in frames ==> !HasBreak(f + "\n")
    ensures Cut(Joined(frames) + t) == State(frames + Cut(t).frames, Cut(t).rest)
    decreases |frames|
  {
    if frames == [] {
      assert Joined(frames) + t == t;
    } else {
      JoinedHead(frames, t);
      CutFramed(frames[0], Joined(frames[1..]) + t);
      CutIsUnique(frames[1..], t);
      HeadFirst(frames, Cut(t).frames);
    }
  }

  lemma JoinedHead(frames: seq<string>, t: string)
    requires frames != []
    ensures Joined(frames) + t == frames[0] + "\n\n" + (Joined(frames[1..]) + t)
  {}

  lemma HeadFirst(a: seq<string>, b: seq<string>)
    requires a != []
    ensures a + b == [a[0]] + (a[1..] + b)
  {}

  lemma CutFramed(f: string, t: string)
    requires !HasBreak(f + "\n")
    ensures Cut(f + "\n\n" + t) == State([f] + Cut(t).frames, Cut(t).rest)
  {
    var s := f + "\n\n" + t;
    FirstBreakOfFramed(f, t);
    CutStep(s);
    assert s[|f| + 2..] == t && s[..|f|] == f;
  }

  // ----- chunks

  lemma JoinedEndsInLf(frames: seq<string>)
    ensures frames != [] ==> Joined(frames) != "" && Joined(frames)[|Joined(frames)| - 1] == '\n'
  {
    if frames != [] {
      JoinedEndsInLf(frames[1..]);
    }
  }

  /** Cut frames take no part in later rewriting. */
  lemma NormKeepsCutFrames(frames: seq<string>, t: string)
    requires !HasCrLf(Joined(frames))
    ensures Norm(Joined(frames) + t) == Joined(frames) + Norm(t)
  {
    JoinedEndsInLf(frames);
    NormJoin(Joined(frames), t);
    NormKeeps(Joined(frames));
  }

  lemma HasCrCrLfJoin(a: string, b: string)
    requires HasCrCrLf(a) || HasCrCrLf(b)
    ensures HasCrCrLf(a + b)
  {
    if HasCrCrLf(a) {
      var i :| CrCrLfAt(a, i);
      assert CrCrLfAt(a + b, i);
    } else {
      var i :| CrCrLfAt(b, i);
      assert CrCrLfAt(a + b, |a| + i);
    }
  }

  /** However the text was chunked, the state is the one cut of the whole normalized text. */
  lemma {:induction false} FedIsOneCut(chunks: seq<string>)
    requires !HasCrCrLf(Concat(chunks))
    ensures Fed(chunks) == Cut(Norm(Concat(chunks)))
  {
    if chunks != [] {
      var front, c := chunks[..|chunks| - 1], chunks[|chunks| - 1];
      if HasCrCrLf(Concat(front)) {
        HasCrCrLfJoin(Concat(front), c);
      }
      FedIsOneCut(front);
      FeedIsOneCut(Concat(front), c);
    }
  }

  lemma FeedAfterFrames(state: State, c: string)
    requires !HasCrLf(Joined(state.frames))
    requires forall f :: f in state.frames ==> !HasBreak(f + "\n")
    ensures Feed(state, c) == Cut(Norm(Joined(state.frames) + (state.rest + c)))
  {
    NormKeepsCutFrames(state.frames, state.rest + c);
    CutIsUnique(state.frames, Norm(state.rest + c));
  }

  lemma CutFramesAreNormal(p: string, state: State)
    requires !HasCrCrLf(p) && IsCut(Norm(p), state)
    ensures !HasCrLf(Joined(state.frames))
  {
    NormLeavesCrLfIff(p);
    PrefixHasCrLf(Joined(state.frames), state.rest);
  }

  lemma FeedIsOneCut(p: string, c: string)
    requires !HasCrCrLf(p)
    ensures Feed(Cut(Norm(p)), c) == Cut(Norm(p + c))
  {
    CutIsCut(Norm(p));
    CutFramesAreNormal(p, Cut(Norm(p)));
    FeedAfterFrames(Cut(Norm(p)), c);
    Reassociate(Norm(p), Cut(Norm(p)), c);
    NormAbsorbs(p, c);
  }

  lemma Reassociate(s: string, state: State, c: string)
    requires s == Joined(state.frames) + state.rest
    ensures s + c == Joined(state.frames) + (state.rest + c)
  {}

  lemma PrefixHasCrLf(a: string, b: string)
    ensures HasCrLf(a) ==> HasCrLf(a + b)
  {
    if HasCrLf(a) {
      var i :| CrLfAt(a, i);
      assert CrLfAt(a + b, i);
    }
  }

  /** Two ways to chunk the same text emit the same frames and the same tail. */
  lemma ChunkingDoesNotMatter(chunks: seq<string>, flush: string, chunks': seq<string>, flush': string)
    requires Concat(chunks + [flush]) == Concat(chunks' + [flush'])
    requires !HasCrCrLf(Concat(chunks + [flush]))
    ensures Emitted(Fed(chunks + [flush])) == Emitted(Fed(chunks' + [flush']))
  {
    FedIsOneCut(chunks + [flush]);
    FedIsOneCut(chunks' + [flush']);
  }

  ghost predicate ChunkInvariant(text: string) {
    forall chunks :: Concat(chunks) == text ==> Fed(chunks) == Cut(Norm(text))
  }

  /** All text a state holds: its frames with their blank lines, and the rest. */
  function Size(state: State): nat {
    |Joined(state.frames)| + |state.rest|
  }

  lemma FedTwo(u: string, v: string)
    ensures Concat([u, v]) == u + v
    ensures Fed([u, v]) == Feed(Cut(Norm(u)), v)
  {
    assert [u, v][..1] == [u] && [u][..0] == [];
    assert Concat([u]) == "" + u == u;
    assert Fed([u]) == Feed(State([], ""), u);
    assert "" + u == u && [] + Cut(Norm(u)).frames == Cut(Norm(u)).frames;
  }

  /** Feeding rewrites line ends of the rest once more: a CR LF waiting there costs a character. */
  lemma FeedShrinks(s: string, state: State, v: string)
    requires IsCut(s, state) && EndsInCrLf(state.rest)
    ensures Size(Feed(state, v)) < |s| + |Norm(v)|
  {
    NormJoin(state.rest, v);
    NormShrinks(state.rest);
    CutIsCut(Norm(state.rest + v));
    JoinedJoin(state.frames, Cut(Norm(state.rest + v)).frames);
  }

  ghost predicate EndsInCrLf(s: string) {
    |s| >= 2 && CrLfAt(s, |s| - 2)
  }

  lemma FeedAfterCrLf(s: string, state: State, v: string)
    requires EndsInCrLf(s) && IsCut(s, state)
    ensures Size(Feed(state, v)) < |s| + |Norm(v)|
  {
    LastCrLfIsInRest(s, state);
    FeedShrinks(s, state, v);
  }

  lemma FeedCutAfterCrLf(s: string, v: string)
    requires EndsInCrLf(s)
    ensures Size(Feed(Cut(s), v)) < |s| + |Norm(v)|
  {
    CutIsCut(s);
    FeedAfterCrLf(s, Cut(s), v);
  }

  /** A chunk boundary right after a CR CR LF rewrites one line end more. */
  lemma SplitAfterCrCrLf(text: string, i: nat)
    requires CrCrLfAt(text, i)
    ensures var chunks := [text[..i + 3], text[i + 3..]];
            Concat(chunks) == text && Fed(chunks) != Cut(Norm(text))
  {
    var u, v := text[..i + 3], text[i + 3..];
    assert text == u + v;
    FedTwo(u, v);
    NormEndsInCrLf(u, i);
    FeedCutAfterCrLf(Norm(u), v);
    NormJoin(u, v);
    CutSize(Norm(text));
  }

  lemma CutSize(s: string)
    ensures Size(Cut(s)) == |s|
  {
    CutIsCut(s);
  }

  lemma {:induction false} JoinedJoin(a: seq<string>, b: seq<string>)
    ensures Joined(a + b) == Joined(a) + Joined(b)
  {
    if a == [] {
      assert a + b == b;
    } else {
      assert (a + b)[1..] == a[1..] + b;
      JoinedJoin(a[1..], b);
    }
  }

  lemma NormEndsInCrLf(u: string, i: nat)
    requires CrCrLfAt(u, i) && |u| == i + 3
    ensures EndsInCrLf(Norm(u))
  {
    var front := u[..i + 1];
    assert u == front + "\r\n";
    NormJoin(front, "\r\n");
    assert "\r\n"[2..] == "";
    NormCrLf("\r\n");
    NormEndsInCr(front);
  }

  /** Frames end in a blank line, so a last CR LF is not theirs. */
  lemma LastCrLfIsInRest(s: string, state: State)
    requires IsCut(s, state) && EndsInCrLf(s)
    ensures EndsInCrLf(state.rest)
  {
    var j := Joined(state.frames);
    JoinedEndsInTwoLf(state.frames);
    assert j != "" ==> s[|j| - 1] == '\n' && s[|j| - 2] == '\n';
    assert state.rest == s[|j|..];
  }

  lemma {:induction false} NormEndsInCr(s: string)
    requires s != "" && s[|s| - 1] == '\r'
    ensures Norm(s) != "" && Norm(s)[|Norm(s)| - 1] == '\r'
    decreases |s|
  {
    if |s| >= 2 && s[0] == '\r' && s[1] == '\n' {
      NormEndsInCr(s[2..]);
    } else if |s| > 1 {
      NormEndsInCr(s[1..]);
    }
  }

  lemma {:induction false} JoinedEndsInTwoLf(frames: seq<string>)
    ensures var j := Joined(frames); j != "" ==> |j| >= 2 && j[|j| - 1] == '\n' && j[|j| - 2] == '\n'
  {
    if frames != [] {
      JoinedEndsInTwoLf(frames[1..]);
      if Joined(frames[1..]) == "" {
        assert Joined(frames) == frames[0] + "\n\n";
      }
    }
  }

  /** Cutting is independent of the chunks exactly for texts without CR CR LF. */
  lemma ChunkInvariantIff(text: string)
    ensures ChunkInvariant(text) <==> !HasCrCrLf(text)
  {
    if HasCrCrLf(text) {
      var i :| CrCrLfAt(text, i);
      SplitAfterCrCrLf(text, i);
    } else {
      forall chunks | Concat(chunks) == text ensures Fed(chunks) == Cut(Norm(text)) {
        FedIsOneCut(chunks);
      }
    }
  }

  lemma FedSnoc(chunks: seq<string>, c: string)
    ensures Fed(chunks + [c]) == Feed(Fed(chunks), c)
    ensures Concat(chunks + [c]) == Concat(chunks) + c
  {
    assert (chunks + [c])[..|chunks|] == chunks;
  }

  lemma FeedRest(state: State, c: string, cut: State)
    requires Cut(Norm(state.rest + c)) == cut
    ensures Feed(state, c) == State(state.frames + cut.frames, cut.rest)
  {}

  lemma FirstChunk(chunk: string, cut: State)
    requires Cut(Norm(chunk)) == cut
    ensures Fed([chunk]) == cut
  {
    FedSnoc([], chunk);
    assert [] + [chunk] == [chunk] && "" + chunk == chunk && [] + cut.frames == cut.frames;
    FeedRest(State([], ""), chunk, cut);
  }

  lemma WholeExample()
    ensures Fed(["a\r\r\n\nb"] + [""]) == State(["a\r"], "b")
  {
    NormOfExample();
    CutOfExample();
    FirstChunk("a\r\r\n\nb", State(["a\r"], "b"));
    LastFlush(["a\r\r\n\nb"], "a\r");
  }

  lemma HalvesExample()
    ensures Fed(["a\r\r\n"] + ["\nb"] + [""]) == State(["a"], "b")
  {
    FirstHalf();
    NormOfExample();
    CutOfExample();
    FedSnoc(["a\r\r\n"], "\nb");
    assert "a\r\n" + "\nb" == "a\r\n\nb";
    FeedRest(State([], "a\r\n"), "\nb", State(["a"], "b"));
    LastFlush(["a\r\r\n"] + ["\nb"], "a");
  }

  lemma FirstHalf()
    ensures Fed(["a\r\r\n"]) == State([], "a\r\n")
  {
    NormOfExample();
    CutOfExample();
    FirstChunk("a\r\r\n", State([], "a\r\n"));
  }

  lemma LastFlush(chunks: seq<string>, frame: string)
    requires Fed(chunks) == State([frame], "b")
    ensures Fed(chunks + [""]) == State([frame], "b")
  {
    CutOfExample();
    FedSnoc(chunks, "");
    assert "b" + "" == "b" && [frame] + [] == [frame];
    FeedRest(State([frame], "b"), "", State([], "b"));
  }

  /** With CR CR LF the caller can see the chunk boundary: the same text gives the frame `a` CR or the frame `a`. */
  lemma CrCrLfCanChangeAFrame()
    ensures Concat(["a\r\r\n\nb"] + [""]) == Concat(["a\r\r\n"] + ["\nb"] + [""])
    ensures Emitted(Fed(["a\r\r\n\nb"] + [""])) == ["a\r", "b"]
    ensures Emitted(Fed(["a\r\r\n"] + ["\nb"] + [""])) == ["a", "b"]
  {
    SameText();
    WholeExample();
    HalvesExample();
    EmittedFrame("a\r");
    EmittedFrame("a");
  }

  lemma SameText()
    ensures Concat(["a\r\r\n\nb"] + [""]) == Concat(["a\r\r\n"] + ["\nb"] + [""])
  {
    FedSnoc(["a\r\r\n\nb"], "");
    FedSnoc([], "a\r\r\n\nb");
    FedSnoc(["a\r\r\n"] + ["\nb"], "");
    FedSnoc(["a\r\r\n"], "\nb");
    FedSnoc([], "a\r\r\n");
    assert [] + ["a\r\r\n\nb"] == ["a\r\r\n\nb"] && [] + ["a\r\r\n"] == ["a\r\r\n"];
  }

  lemma EmittedFrame(frame: string)
    requires frame == "a" || frame == "a\r"
    ensures Emitted(State([frame], "b")) == [frame, "b"]
  {
    TrimOfExample();
    VisibleSnoc([], frame);
    assert [] + [frame] == [frame];
  }

  lemma TrimOfExample()
    ensures Trim("a") == "a" && Trim("b") == "b" && Trim("a\r") == "a"
  {
    assert "a\r"[..1] == "a";
  }

  lemma NormOfExample()
    ensures Norm("a\r\r\n\nb") == "a\r\n\nb"
    ensures Norm("a\r\n\nb") == "a\n\nb"
    ensures Norm("a\r\r\n") == "a\r\n"
  {
    assert Norm("\nb") == "\nb";
    assert "\r\n\nb"[2..] == "\nb";
    assert Norm("\r\n\nb") == "\n\nb";
    assert "\r\r\n\nb"[1..] == "\r\n\nb" && "a\r\r\n\nb"[1..] == "\r\r\n\nb" && "a\r\n\nb"[1..] == "\r\n\nb";
    assert Norm("\r\r\n\nb") == "\r\n\nb";
    assert "\r\n"[2..] == "" && Norm("\r\n") == "\n";
    assert "\r\r\n"[1..] == "\r\n" && Norm("\r\r\n") == "\r\n";
    assert "a\r\r\n"[1..] == "\r\r\n";
  }

  lemma CutOfExample()
    ensures Cut("a\r\n\nb") == State(["a\r"], "b")
    ensures Cut("a\n\nb") == State(["a"], "b")
    ensures Cut("a\r\n") == State([], "a\r\n")
    ensures Norm("b") == "b" && Cut("b") == State([], "b")
  {
    assert "a\r" + "\n\n" + "b" == "a\r\n\nb" && "a" + "\n\n" + "b" == "a\n\nb";
    assert "a\r" + "\n" == "a\r\n";
    CutFramed("a\r", "b");
    CutFramed("a", "b");
    FirstBreakIsFirst("a\r\n");
  }

  // ----- a reading that leaves no CR before LF

  /** No CR stands before an LF, neither in the frames with their line ends nor in the rest. */
  ghost predicate Clean(state: State) {
    (forall f :: f in state.frames ==> !HasCrLf(f + "\n")) && !HasCrLf(state.rest) && !HasBreak(state.rest)
  }

  /** The same, but the rest may end in CR LF. */
  ghost predicate NearlyClean(state: State) {
    && (forall f :: f in state.frames ==> !HasCrLf(f + "\n"))
    && (forall i :: CrLfAt(state.rest, i) ==> i == |state.rest| - 2) && !HasBreak(state.rest)
  }

  lemma CutWhole(s: string)
    requires !HasBreak(s)
    ensures Cut(s) == State([], s)
  {
    FirstBreakIsFirst(s);
  }

  /** One line end after clean text. */
  lemma CutLine(y: string)
    requires !HasCrLf(y) && !HasBreak(y)
    ensures NearlyClean(Cut(y + "\n"))
    ensures Cut(y + "\n").rest == "" || Cut(y + "\n").rest == y + "\n"
  {
    var s := y + "\n";
    if y != "" && y[|y| - 1] == '\n' {
      var z := y[..|y| - 1];
      assert y == z + "\n" && s == z + "\n\n" + "";
      CutFramed(z, "");
      CutWhole("");
    } else {
      forall i ensures !BreakAt(s, i) {
        assert BreakAt(s, i) ==> i < |y| - 1 && BreakAt(y, i);
      }
      CutWhole(s);
      forall i | CrLfAt(s, i) ensures i == |s| - 2 {
        assert i < |y| - 1 ==> CrLfAt(y, i);
      }
    }
  }

  lemma NormLastLine(y: string)
    requires !HasCrLf(y)
    ensures Norm(y + "\r\n") == y + "\n"
  {
    NormJoin(y, "\r\n");
    NormKeeps(y);
    assert "\r\n"[2..] == "";
    NormCrLf("\r\n");
  }

  /** One more character after clean text, normalized and cut. */
  lemma OneCharacter(rest: string, c: char)
    requires !HasCrLf(rest) && !HasBreak(rest)
    ensures NearlyClean(Cut(Norm(rest + [c])))
  {
    var s := rest + [c];
    if c == '\n' && rest != "" && rest[|rest| - 1] == '\r' {
      var y := rest[..|rest| - 1];
      assert s == y + "\r\n";
      PrefixIsClean(y, rest);
      NormLastLine(y);
      CutLine(y);
    } else {
      forall i ensures !CrLfAt(s, i) {
        assert CrLfAt(s, i) && i < |rest| - 1 ==> CrLfAt(rest, i);
      }
      NormKeeps(s);
      if c == '\n' {
        CutLine(rest);
      } else {
        forall i ensures !BreakAt(s, i) {
          assert BreakAt(s, i) ==> i < |rest| - 1 && BreakAt(rest, i);
        }
        CutWhole(s);
      }
    }
  }

  lemma PrefixIsClean(y: string, s: string)
    requires y <= s && !HasBreak(s)
    ensures !HasBreak(y)
    ensures !HasCrLf(s) ==> !HasCrLf(y)
    ensures (forall i :: CrLfAt(s, i) ==> i == |s| - 2) && |y| < |s| ==> !HasCrLf(y)
  {
    forall i ensures !BreakAt(y, i) {
      assert BreakAt(y, i) ==> BreakAt(s, i);
    }
    forall i | CrLfAt(y, i) ensures CrLfAt(s, i) {}
  }

  /** An empty chunk takes away one CR before a last LF. */
  lemma EmptyChunk(state: State)
    requires NearlyClean(state) && HasCrLf(state.rest)
    ensures NearlyClean(Feed(state, "")) && |Feed(state, "").rest| < |state.rest|
  {
    var rest := state.rest;
    var y := rest[..|rest| - 2];
    assert rest + "" == rest == y + "\r\n";
    PrefixIsClean(y, rest);
    NormLastLine(y);
    CutLine(y);
  }

  lemma {:induction false} EmptyChunksClean(chunks: seq<string>) returns (more: seq<string>)
    requires NearlyClean(Fed(chunks))
    ensures Concat(chunks + more) == Concat(chunks) && Clean(Fed(chunks + more))
    decreases |Fed(chunks).rest|
  {
    if !HasCrLf(Fed(chunks).rest) {
      more := [];
      assert chunks + [] == chunks;
    } else {
      EmptyChunk(Fed(chunks));
      FedSnoc(chunks, "");
      var others := EmptyChunksClean(chunks + [""]);
      more := [""] + others;
      assert chunks + more == chunks + [""] + others;
    }
  }

  /** Every text can be read so that no CR is left before an LF. */
  lemma {:induction false} CleanReading(text: string) returns (chunks: seq<string>)
    ensures Concat(chunks) == text && Clean(Fed(chunks))
  {
    if text == "" {
      chunks := [];
    } else {
      var c := text[|text| - 1];
      var front := CleanReading(text[..|text| - 1]);
      OneCharacter(Fed(front).rest, c);
      FedSnoc(front, [c]);
      assert text == text[..|text| - 1] + [c];
      var more := EmptyChunksClean(front + [[c]]);
      chunks := front + [[c]] + more;
    }
  }

  /** Trimming takes the spaces at both ends, and only those. */
  lemma {:induction false} TrimIsWithin(s: string) returns (i: nat)
    ensures i + |Trim(s)| <= |s| && Trim(s) == s[i..i + |Trim(s)|]
    ensures forall k :: 0 <= k < i || i + |Trim(s)| <= k < |s| ==> IsSpace(s[k])
    ensures Trim(s) != "" ==> !IsSpace(Trim(s)[0]) && !IsSpace(Trim(s)[|Trim(s)| - 1])
    decreases |s|
  {
    if s != "" && IsSpace(s[0]) {
      var j := TrimIsWithin(s[1..]);
      i := j + 1;
      assert forall k :: 1 <= k < |s| ==> s[k] == s[1..][k - 1];
    } else if s != "" && IsSpace(s[|s| - 1]) {
      i := TrimIsWithin(s[..|s| - 1]);
      assert forall k :: 0 <= k < |s| - 1 ==> s[k] == s[..|s| - 1][k];
    } else {
      i := 0;
      assert s[0..|s|] == s;
    }
  }

  lemma {:induction false} VisibleAreFrames(frames: seq<string>)
    ensures forall f :: f in Visible(frames) ==> f in frames
  {
    if frames != [] {
      VisibleAreFrames(frames[..|frames| - 1]);
      assert frames == frames[..|frames| - 1] + [frames[|frames| - 1]];
    }
  }

  lemma CleanEmission(state: State, f: string)
    requires Clean(state) && f in Emitted(state)
    ensures !HasCrLf(f + "\n")
  {
    VisibleAreFrames(state.frames);
    if f !in Visible(state.frames) {
      assert f == Trim(state.rest) && f != "";
      var i := TrimIsWithin(state.rest);
      forall j ensures !CrLfAt(f + "\n", j) {
        assert CrLfAt(f + "\n", j) && j < |f| - 1 ==> CrLfAt(state.rest, i + j);
        assert j == |f| - 1 ==> !IsSpace(f[j]);
      }
    }
  }

  /** Whatever a reading hands over with a CR before a line end is handed over differently, or not at all, by another
      reading of the same text. */
  lemma HandedOverCrIsUnstable(chunks: seq<string>, f: string) returns (others: seq<string>)
    requires f in Emitted(Fed(chunks)) && HasCrLf(f + "\n")
    ensures Concat(others) == Concat(chunks) && f !in Emitted(Fed(others))
  {
    others := CleanReading(Concat(chunks));
    if f in Emitted(Fed(others)) {
      CleanEmission(Fed(others), f);
    }
  }

  // ----- the rules in terms of the text

  /** There is a blank line between two parts of the text, or none. */
  lemma HasBreakIs(s: string)
    ensures HasBreak(s) <==> exists a, b :: s == a + "\n\n" + b
  {
    if HasBreak(s) {
      var i :| BreakAt(s, i);
      assert s == s[..i] + "\n\n" + s[i + 2..];
    }
    forall a, b | s == a + "\n\n" + b ensures HasBreak(s) {
      assert BreakAt(s, |a|);
    }
  }

  /** CR LF becomes LF wherever it stands. */
  lemma NormReplaces(a: string, b: string)
    ensures Norm(a + "\r\n" + b) == Norm(a) + "\n" + Norm(b)
  {
    assert !CrLfAt("\r\n" + b, 1);
    NormJoin(a, "\r\n" + b);
    assert a + "\r\n" + b == a + ("\r\n" + b);
    NormCrLf("\r\n" + b);
    assert ("\r\n" + b)[2..] == b;
    assert Norm(a) + ("\n" + Norm(b)) == Norm(a) + "\n" + Norm(b);
  }

  /** The white space of ECMAScript, with its line terminators. */
  lemma SpacesAre(c: char)
    ensures IsSpace(c) <==> c in "\U{9}\U{A}\U{B}\U{C}\U{D} \U{A0}\U{1680}\U{2000}\U{2001}\U{2002}\U{2003}\U{2004}\U{2005}\U{2006}\U{2007}\U{2008}\U{2009}\U{200A}\U{2028}\U{2029}\U{202F}\U{205F}\U{3000}\U{FEFF}"
  {}

  /** Frames that are not blank are handed over as they are, one after the other, and then the trimmed rest. */
  lemma EmittedAre(frames: seq<string>, f: string, rest: string)
    ensures Visible([]) == [] && Visible([f] + frames) == (if Trim(f) == "" then [] else [f]) + Visible(frames)
    ensures Emitted(State(frames, rest)) == Visible(frames) + if Trim(rest) == "" then [] else [Trim(rest)]
  {
    VisibleJoin([f], frames);
    VisibleSnoc([], f);
    assert [] + [f] == [f] && [] + Dispatch(f) == Dispatch(f);
  }
}
