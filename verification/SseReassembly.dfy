/** Putting a streamed chat reply back together from its data chunks. */
module SseReassembly {
  import opened Common
  import opened OrderedMaps

  /** A fragment of a tool call; an empty id, name or arguments is a missing or empty field. */
  datatype CallDelta = CallDelta(index: nat, id: string, kind: Option<string>, name: string, arguments: string)

  datatype Call = Call(id: string, kind: string, name: string, arguments: string)

  /** A parsed `data:` line; `message` is set when it carries a full message instead of a delta. */
  datatype Chunk = Chunk(id: string, message: Option<string>, content: string, calls: seq<CallDelta>,
        usage: Option<nat>)

  datatype Reply = Reply(id: string, content: string, calls: seq<Call>, usage: Option<nat>)

  datatype Outcome = Failed | Whole(chunk: Chunk) | Assembled(reply: Reply)

  const FUNCTION := "function"

  // ------------------------------------------------------------ the reference

  function Contents(chunks: seq<Chunk>): string {
    if chunks == [] then "" else Contents(chunks[..|chunks| - 1]) + chunks[|chunks| - 1].content
  }

  /** All fragments in the order they arrived. */
  function Deltas(chunks: seq<Chunk>): seq<CallDelta> {
    if chunks == [] then [] else Deltas(chunks[..|chunks| - 1]) + chunks[|chunks| - 1].calls
  }

  /** The fragments of one call. */
  function Of(ds: seq<CallDelta>, index: nat): seq<CallDelta> {
    if ds == [] then [] else
      Of(ds[..|ds| - 1], index) + if ds[|ds| - 1].index == index then [ds[|ds| - 1]] else []
  }

  /** The call indices in the order they were first seen. */
  function FirstSeen(ds: seq<CallDelta>): seq<nat> {
    if ds == [] then [] else
      var before := FirstSeen(ds[..|ds| - 1]);
      if ds[|ds| - 1].index in before then before else before + [ds[|ds| - 1].index]
  }

  function Names(ds: seq<CallDelta>): string {
    if ds == [] then "" else Names(ds[..|ds| - 1]) + ds[|ds| - 1].name
  }

  function Arguments(ds: seq<CallDelta>): string {
    if ds == [] then "" else Arguments(ds[..|ds| - 1]) + ds[|ds| - 1].arguments
  }

  /** The last id given, if any. */
  function LastId(ds: seq<CallDelta>): string {
    if ds == [] then "" else if ds[|ds| - 1].id != "" then ds[|ds| - 1].id else LastId(ds[..|ds| - 1])
  }

  /** `call?.type ?? 'function'`. */
  function KindOf(d: CallDelta): string {
    if d.kind.Some? then d.kind.value else FUNCTION
  }

  /** What the fragments of one call amount to: the type is the first fragment's. */
  function Whole1(ds: seq<CallDelta>): Call {
    Call(LastId(ds), if ds != [] then KindOf(ds[0]) else FUNCTION, Names(ds), Arguments(ds))
  }

  function WholeCalls(ds: seq<CallDelta>, order: seq<nat>): seq<Call> {
    if order == [] then [] else WholeCalls(ds, order[..|order| - 1]) + [Whole1(Of(ds, order[|order| - 1]))]
  }

  function FirstChunkId(chunks: seq<Chunk>): string {
    if chunks == [] then "" else if chunks[0].id != "" then chunks[0].id else FirstChunkId(chunks[1..])
  }

  /** The last chunk with a full message. */
  function LastWhole(chunks: seq<Chunk>): Option<Chunk> {
    if chunks == [] then None
    else if chunks[|chunks| - 1].message.Some? then Some(chunks[|chunks| - 1])
    else LastWhole(chunks[..|chunks| - 1])
  }

  function Reassembled(chunks: seq<Chunk>): Outcome {
    if chunks == [] then Failed
    else if |chunks| == 1 then Whole(chunks[0])
    else if LastWhole(chunks).Some? then Whole(LastWhole(chunks).value)
    else
      var ds := Deltas(chunks);
      Assembled(Reply(FirstChunkId(chunks), Contents(chunks), WholeCalls(ds, FirstSeen(ds)),
                      chunks[|chunks| - 1].usage))
  }

  // ------------------------------------------------------------ which branch, which id

  /** The chunk has a full message and no later one does. */
  predicate LastMessage(chunks: seq<Chunk>, i: nat) {
    && i < |chunks| && chunks[i].message.Some?
    && forall j :: i < j < |chunks| ==> chunks[j].message.None?
  }

  lemma {:induction false} LastWholeIs(chunks: seq<Chunk>)
    ensures LastWhole(chunks).None? ==> forall j :: 0 <= j < |chunks| ==> chunks[j].message.None?
    ensures LastWhole(chunks).Some? ==> exists i: nat :: LastMessage(chunks, i) && LastWhole(chunks).value == chunks[i]
  {
    if chunks != [] {
      var n := |chunks| - 1;
      if chunks[n].message.Some? {
        assert LastMessage(chunks, n);
      } else {
        LastWholeIs(chunks[..n]);
        if LastWhole(chunks).Some? {
          var i: nat :| LastMessage(chunks[..n], i) && LastWhole(chunks).value == chunks[..n][i];
          assert LastMessage(chunks, i);
        }
      }
    }
  }

  /**
   * No chunk is a failure, a single one is the reply as it is, and of several the last with a full message is; only
   * when none has one are the deltas put together.
   */
  lemma ReplyIs(chunks: seq<Chunk>)
    ensures Reassembled(chunks) == Failed <==> chunks == []
    ensures |chunks| == 1 ==> Reassembled(chunks) == Whole(chunks[0])
    ensures |chunks| >= 2 ==>
              (Reassembled(chunks).Assembled? <==> forall j :: 0 <= j < |chunks| ==> chunks[j].message.None?)
    ensures |chunks| >= 2 && Reassembled(chunks).Whole? ==>
              exists i: nat :: LastMessage(chunks, i) && Reassembled(chunks).chunk == chunks[i]
  {
    hide LastWhole, FirstChunkId, Contents, Deltas, WholeCalls, FirstSeen;
    LastWholeIs(chunks);
  }

  predicate FirstGiven(ids: seq<string>, i: nat) {
    i < |ids| && ids[i] != "" && forall j :: 0 <= j < i ==> ids[j] == ""
  }

  predicate LastGiven(ids: seq<string>, i: nat) {
    i < |ids| && ids[i] != "" && forall j :: i < j < |ids| ==> ids[j] == ""
  }

  function ChunkIds(chunks: seq<Chunk>): (r: seq<string>)
    ensures |r| == |chunks| && forall i :: 0 <= i < |r| ==> r[i] == chunks[i].id
  {
    seq(|chunks|, i requires 0 <= i < |chunks| => chunks[i].id)
  }

  function DeltaIds(ds: seq<CallDelta>): (r: seq<string>)
    ensures |r| == |ds| && forall i :: 0 <= i < |r| ==> r[i] == ds[i].id
  {
    seq(|ds|, i requires 0 <= i < |ds| => ds[i].id)
  }

  /** A reply has the first id that any chunk gives, and none if there is none. */
  lemma {:induction false} ReplyId(chunks: seq<Chunk>)
    ensures FirstChunkId(chunks) == "" <==> forall i :: 0 <= i < |chunks| ==> chunks[i].id == ""
    ensures forall i: nat :: FirstGiven(ChunkIds(chunks), i) ==> FirstChunkId(chunks) == chunks[i].id
  {
    if chunks != [] && chunks[0].id == "" {
      var rest := chunks[1..];
      ReplyId(rest);
      assert forall i :: 1 <= i < |chunks| ==> chunks[i] == rest[i - 1];
      forall i: nat | FirstGiven(ChunkIds(chunks), i) ensures FirstChunkId(chunks) == chunks[i].id {
        assert i > 0 && FirstGiven(ChunkIds(rest), i - 1);
      }
    }
  }

  /** A call has the last id that its fragments give. */
  lemma {:induction false} CallId(ds: seq<CallDelta>)
    ensures LastId(ds) == "" <==> forall i :: 0 <= i < |ds| ==> ds[i].id == ""
    ensures forall i: nat :: LastGiven(DeltaIds(ds), i) ==> LastId(ds) == ds[i].id
  {
    if ds != [] && ds[|ds| - 1].id == "" {
      var front := ds[..|ds| - 1];
      CallId(front);
      forall i: nat | LastGiven(DeltaIds(ds), i) ensures LastId(ds) == ds[i].id {
        assert i < |front| && LastGiven(DeltaIds(front), i);
      }
    }
  }

  // ------------------------------------------------------------ the accumulator

  function Merge(m: OMap<nat, Call>, d: CallDelta): OMap<nat, Call> {
    var current := if d.index in m.vals then m.vals[d.index] else Call(d.id, KindOf(d), "", "");
    m.Set(d.index, Call(if d.id != "" then d.id else current.id, current.kind,
                        current.name + d.name, current.arguments + d.arguments))
  }

  /**
   * The accumulator after a sequence of fragments: an entry for every index seen, worth what its fragments amount to.
   */
  ghost predicate Accumulates(m: OMap<nat, Call>, ds: seq<CallDelta>) {
    && m.keys == FirstSeen(ds)
    && (forall k :: k in m.vals <==> k in FirstSeen(ds))
    && (forall k :: k in m.vals ==> m.vals[k] == Whole1(Of(ds, k)))
  }

  lemma OfStep(ds: seq<CallDelta>, d: CallDelta, k: nat)
    ensures Of(ds + [d], k) == Of(ds, k) + if d.index == k then [d] else []
    ensures FirstSeen(ds + [d]) == if d.index in FirstSeen(ds) then FirstSeen(ds) else FirstSeen(ds) + [d.index]
  {
    assert (ds + [d])[..|ds|] == ds;
  }

  lemma {:induction false} SeenIffFragments(ds: seq<CallDelta>, k: nat)
    ensures k in FirstSeen(ds) <==> Of(ds, k) != []
  {
    if ds != [] { SeenIffFragments(ds[..|ds| - 1], k); }
  }

  lemma TextStep(ds: seq<CallDelta>, d: CallDelta)
    ensures Names(ds + [d]) == Names(ds) + d.name
    ensures Arguments(ds + [d]) == Arguments(ds) + d.arguments
    ensures LastId(ds + [d]) == if d.id != "" then d.id else LastId(ds)
  {
    assert (ds + [d])[..|ds|] == ds;
  }

  function AddedTo(c: Call, d: CallDelta): Call {
    Call(if d.id != "" then d.id else c.id, c.kind, c.name + d.name, c.arguments + d.arguments)
  }

  lemma WholeStep(ds: seq<CallDelta>, d: CallDelta)
    requires ds != []
    ensures Whole1(ds + [d]) == AddedTo(Whole1(ds), d)
  {
    hide KindOf, Names, Arguments, LastId;
    TextStep(ds, d);
    assert (ds + [d])[0] == ds[0];
  }

  lemma WholeFirst(d: CallDelta)
    ensures Whole1([d]) == AddedTo(Call(d.id, KindOf(d), "", ""), d)
  {
    hide KindOf;
    TextStep([], d);
    assert [] + [d] == [d];
    assert LastId([]) == "" && Names([]) == "" && Arguments([]) == "";
  }

  /** One fragment brings the accumulator to what the longer sequence amounts to. */
  lemma MergeAccumulates(m: OMap<nat, Call>, ds: seq<CallDelta>, d: CallDelta)
    requires Accumulates(m, ds)
    ensures Accumulates(Merge(m, d), ds + [d])
  {
    hide Whole1, FUNCTION, KindOf, Of, FirstSeen;
    var m' := Merge(m, d);
    OfStep(ds, d, d.index);
    SeenIffFragments(ds, d.index);
    forall k | k in m'.vals ensures m'.vals[k] == Whole1(Of(ds + [d], k)) {
      OfStep(ds, d, k);
      if k != d.index {
        assert Of(ds, k) + [] == Of(ds, k);
      } else if d.index in m.vals {
        WholeStep(Of(ds, k), d);
      } else {
        assert [] + [d] == [d];
        WholeFirst(d);
      }
    }
  }

  /** The tool calls of one delta. */
  method MergeCalls(toolCalls: OMap<nat, Call>, calls: seq<CallDelta>, ghost before: seq<CallDelta>)
    returns (merged: OMap<nat, Call>)
    requires Accumulates(toolCalls, before)
    ensures Accumulates(merged, before + calls)
  {
    hide Accumulates, Merge;
    merged := toolCalls;
    var j := 0;
    assert before + calls[..0] == before;
    while j < |calls|
      invariant 0 <= j <= |calls|
      invariant Accumulates(merged, before + calls[..j])
    {
      MergeAccumulates(merged, before + calls[..j], calls[j]);
      assert before + calls[..j] + [calls[j]] == before + calls[..j + 1];
      merged := Merge(merged, calls[j]);
      j := j + 1;
    }
    assert calls[..j] == calls;
  }

  /** The loop over the deltas. */
  method Accumulate(chunks: seq<Chunk>) returns (content: string, toolCalls: OMap<nat, Call>)
    ensures content == Contents(chunks)
    ensures Accumulates(toolCalls, Deltas(chunks))
  {
    hide Accumulates;
    toolCalls := Empty();
    content := "";
    var i := 0;
    NothingYet();
    while i < |chunks|
      invariant 0 <= i <= |chunks|
      invariant content == Contents(chunks[..i])
      invariant Accumulates(toolCalls, Deltas(chunks[..i]))
    {
      var chunk := chunks[i];
      content := content + chunk.content;
      toolCalls := MergeCalls(toolCalls, chunk.calls, Deltas(chunks[..i]));
      assert chunks[..i + 1][..i] == chunks[..i];
      i := i + 1;
    }
    assert chunks[..i] == chunks;
  }

  method ParseChunks(chunks: seq<Chunk>) returns (r: Outcome)
    ensures r == Reassembled(chunks)
  {
    hide Accumulates, LastWhole, FirstChunkId, FirstSeen, Deltas, Contents, WholeCalls;
    if |chunks| == 0 { return Failed; }
    if |chunks| == 1 { return Whole(chunks[0]); }
    var complete := LastWhole(chunks);
    if complete.Some? { return Whole(complete.value); }
    var content, toolCalls := Accumulate(chunks);
    var calls := Listed(toolCalls, Deltas(chunks));
    return Assembled(Reply(FirstChunkId(chunks), content, calls, chunks[|chunks| - 1].usage));
  }

  lemma NothingYet()
    ensures Accumulates(Empty(), [])
  {
  }

  /** `[...toolCalls.values()]`. */
  method Listed(m: OMap<nat, Call>, ghost ds: seq<CallDelta>) returns (calls: seq<Call>)
    requires Accumulates(m, ds)
    ensures calls == WholeCalls(ds, FirstSeen(ds))
  {
    hide Whole1, Of, FirstSeen;
    calls := [];
    var i := 0;
    while i < |m.keys|
      invariant 0 <= i <= |m.keys|
      invariant calls == WholeCalls(ds, m.keys[..i])
    {
      assert m.keys[i] in m.keys;
      assert m.keys[..i + 1][..i] == m.keys[..i];
      calls := calls + [m.vals[m.keys[i]]];
      i := i + 1;
    }
    assert m.keys[..i] == m.keys;
  }

  // ------------------------------------------------------------ cutting, interleaving, grouping

  /** A call's two texts handed out piece by piece: each fragment takes the next piece of each. */
  predicate CutsTexts(stream: seq<CallDelta>, name: string, arguments: string) {
    if stream == [] then name == "" && arguments == "" else
      && stream[0].name <= name && stream[0].arguments <= arguments
      && CutsTexts(stream[1..], name[|stream[0].name|..], arguments[|stream[0].arguments|..])
  }

  /** The fragments of one call: its texts in pieces, its type on the first, its id on at least one. */
  predicate Carries(stream: seq<CallDelta>, index: nat, c: Call) {
    && stream != []
    && (forall i :: 0 <= i < |stream| ==> stream[i].index == index && (stream[i].id == "" || stream[i].id == c.id))
    && (c.id != "" ==> exists i :: 0 <= i < |stream| && stream[i].id == c.id)
    && (stream[0].kind == Some(c.kind) || (stream[0].kind == None && c.kind == FUNCTION))
    && CutsTexts(stream, c.name, c.arguments)
  }

  /** The next fragment of stream `k` arrives. */
  ghost predicate Arrives(streams: seq<seq<CallDelta>>, begun: nat, k: nat, d: CallDelta) {
    k <= begun && k < |streams| && streams[k] != [] && streams[k][0] == d
  }

  function Begun(begun: nat, k: nat): nat {
    if k == begun then begun + 1 else begun
  }

  /** The streams are merged fragment by fragment in any order; the next call to start is the next in the list. */
  ghost predicate Interleaves(streams: seq<seq<CallDelta>>, begun: nat, merged: seq<CallDelta>)
    decreases |merged|
  {
    if merged == [] then begun == |streams| && forall k :: 0 <= k < |streams| ==> streams[k] == []
    else exists k: nat :: Arrives(streams, begun, k, merged[0])
                          && Interleaves(streams[k := streams[k][1..]], Begun(begun, k), merged[1..])
  }

  /** The content and the fragments are spread over delta chunks, any amount of each in one. */
  predicate Groups(chunks: seq<Chunk>, content: string, merged: seq<CallDelta>) {
    if chunks == [] then content == "" && merged == [] else
      && chunks[0].message.None?
      && chunks[0].content <= content && chunks[0].calls <= merged
      && Groups(chunks[1..], content[|chunks[0].content|..], merged[|chunks[0].calls|..])
  }

  /** The chunks send the reply: `streams` are its calls' fragments, `indices` the numbers the calls go by. */
  ghost predicate Sends(chunks: seq<Chunk>, reply: Reply, indices: seq<nat>, streams: seq<seq<CallDelta>>,
        merged: seq<CallDelta>)
  {
    && |chunks| >= 2
    && NoDup(indices) && |indices| == |streams| == |reply.calls|
    && (forall k :: 0 <= k < |streams| ==> Carries(streams[k], indices[k], reply.calls[k]))
    && Interleaves(streams, 0, merged)
    && Groups(chunks, reply.content, merged)
    && (forall i :: 0 <= i < |chunks| ==> chunks[i].id == "" || chunks[i].id == reply.id)
    && (reply.id != "" ==> exists i :: 0 <= i < |chunks| && chunks[i].id == reply.id)
    && chunks[|chunks| - 1].usage == reply.usage
  }

  // ------------------------------------------------------------ the folds undo them

  lemma {:induction false} NamesFront(ds: seq<CallDelta>)
    requires ds != []
    ensures Names(ds) == ds[0].name + Names(ds[1..])
  {
    var n := |ds| - 1;
    if n == 0 {
      assert ds[..0] == [] && ds[1..] == [];
    } else {
      NamesFront(ds[..n]);
      assert ds[..n][1..] == ds[1..][..n - 1] && ds[1..][n - 1] == ds[n];
      AppendAssoc(ds[0].name, Names(ds[1..][..n - 1]), ds[n].name);
    }
  }

  lemma {:induction false} ArgumentsFront(ds: seq<CallDelta>)
    requires ds != []
    ensures Arguments(ds) == ds[0].arguments + Arguments(ds[1..])
  {
    var n := |ds| - 1;
    if n == 0 {
      assert ds[..0] == [] && ds[1..] == [];
    } else {
      ArgumentsFront(ds[..n]);
      assert ds[..n][1..] == ds[1..][..n - 1] && ds[1..][n - 1] == ds[n];
      AppendAssoc(ds[0].arguments, Arguments(ds[1..][..n - 1]), ds[n].arguments);
    }
  }

  lemma {:induction false} CutsJoin(stream: seq<CallDelta>, name: string, arguments: string)
    requires CutsTexts(stream, name, arguments)
    ensures Names(stream) == name && Arguments(stream) == arguments
  {
    hide Names, Arguments;
    if stream == [] {
      assert Names([]) == "" && Arguments([]) == "" by { NoText(); }
    } else {
      NamesFront(stream);
      ArgumentsFront(stream);
      CutsJoin(stream[1..], name[|stream[0].name|..], arguments[|stream[0].arguments|..]);
    }
  }

  lemma NoText()
    ensures Names([]) == "" && Arguments([]) == ""
  {
  }

  lemma {:induction false} SpelledId(ds: seq<CallDelta>, id: string)
    requires forall i :: 0 <= i < |ds| ==> ds[i].id == "" || ds[i].id == id
    requires id != "" ==> exists i :: 0 <= i < |ds| && ds[i].id == id
    ensures LastId(ds) == id
  {
    if ds != [] && ds[|ds| - 1].id == "" {
      SpelledId(ds[..|ds| - 1], id);
    }
  }

  /** A call's fragments amount to the call. */
  lemma CarriedIsWhole(stream: seq<CallDelta>, index: nat, c: Call)
    requires Carries(stream, index, c)
    ensures Whole1(stream) == c
  {
    hide Names, Arguments, LastId, CutsTexts;
    SpelledId(stream, c.id);
    CutsJoin(stream, c.name, c.arguments);
  }

  /** All fragments of a stream carry its number. */
  ghost predicate Tagged(streams: seq<seq<CallDelta>>, indices: seq<nat>) {
    && |indices| == |streams| && NoDup(indices)
    && forall k, i :: 0 <= k < |streams| && 0 <= i < |streams[k]| ==> streams[k][i].index == indices[k]
  }

  /** What has arrived: `had[k]` of call `k`, and the calls below `begun` have started, in that order. */
  ghost predicate Received(before: seq<CallDelta>, indices: seq<nat>, had: seq<seq<CallDelta>>, begun: nat) {
    && |had| == |indices| && begun <= |indices|
    && FirstSeen(before) == indices[..begun]
    && forall k :: 0 <= k < |indices| ==> Of(before, indices[k]) == had[k]
  }

  lemma ReceivedStep(before: seq<CallDelta>, indices: seq<nat>, had: seq<seq<CallDelta>>, begun: nat, k: nat,
        d: CallDelta)
    requires NoDup(indices) && Received(before, indices, had, begun)
    requires k <= begun && k < |indices| && d.index == indices[k]
    ensures Received(before + [d], indices, had[k := had[k] + [d]], Begun(begun, k))
  {
    hide Of, FirstSeen;
    forall j | 0 <= j < |indices| ensures Of(before + [d], indices[j]) == had[k := had[k] + [d]][j] {
      OfStep(before, d, indices[j]);
      assert had[j] + [] == had[j];
    }
    OfStep(before, d, indices[k]);
    if k < begun {
      assert indices[..begun][k] == indices[k];
    } else {
      assert forall j :: 0 <= j < begun ==> indices[..begun][j] == indices[j];
      assert indices[..begun + 1] == indices[..begun] + [indices[begun]];
    }
  }

  /**
   * However the streams are interleaved, each call's fragments come out whole and the calls in the order they
   * started.
   */
  lemma {:induction false} InterleavedStreams(before: seq<CallDelta>, indices: seq<nat>, had: seq<seq<CallDelta>>,
        begun: nat, streams: seq<seq<CallDelta>>, merged: seq<CallDelta>)
    requires Tagged(streams, indices) && Received(before, indices, had, begun) && Interleaves(streams, begun, merged)
    ensures FirstSeen(before + merged) == indices
    ensures forall k :: 0 <= k < |indices| ==> Of(before + merged, indices[k]) == had[k] + streams[k]
    decreases |merged|
  {
    hide Of, FirstSeen, NoDup;
    if merged == [] {
      assert before + merged == before && indices[..begun] == indices;
    } else {
      var k: nat :| Arrives(streams, begun, k, merged[0])
        && Interleaves(streams[k := streams[k][1..]], Begun(begun, k), merged[1..]);
      var rest, more := streams[k := streams[k][1..]], had[k := had[k] + [merged[0]]];
      TaggedRest(streams, indices, k);
      ReceivedStep(before, indices, had, begun, k, merged[0]);
      InterleavedStreams(before + [merged[0]], indices, more, Begun(begun, k), rest, merged[1..]);
      assert before + [merged[0]] + merged[1..] == before + merged;
      assert streams[k] == [merged[0]] + streams[k][1..];
      AppendAssoc(had[k], [merged[0]], streams[k][1..]);
    }
  }

  lemma TaggedRest(streams: seq<seq<CallDelta>>, indices: seq<nat>, k: nat)
    requires Tagged(streams, indices) && k < |streams| && streams[k] != []
    ensures Tagged(streams[k := streams[k][1..]], indices)
    ensures streams[k][0].index == indices[k]
  {
    hide NoDup;
  }

  ghost function Nothing(n: nat): (r: seq<seq<CallDelta>>)
    ensures |r| == n && forall k :: 0 <= k < n ==> r[k] == []
  {
    seq(n, _ => [])
  }

  lemma NothingReceived(indices: seq<nat>)
    ensures Received([], indices, Nothing(|indices|), 0)
  {
  }

  lemma StreamsComeOut(indices: seq<nat>, streams: seq<seq<CallDelta>>, merged: seq<CallDelta>)
    requires Tagged(streams, indices) && Interleaves(streams, 0, merged)
    ensures FirstSeen(merged) == indices
    ensures forall k :: 0 <= k < |indices| ==> Of(merged, indices[k]) == streams[k]
  {
    hide Of, FirstSeen, Interleaves;
    NothingReceived(indices);
    InterleavedStreams([], indices, Nothing(|indices|), 0, streams, merged);
    assert [] + merged == merged;
    assert forall k :: 0 <= k < |streams| ==> [] + streams[k] == streams[k];
  }

  lemma {:induction false} ContentsFront(chunks: seq<Chunk>)
    requires chunks != []
    ensures Contents(chunks) == chunks[0].content + Contents(chunks[1..])
  {
    var n := |chunks| - 1;
    if n == 0 {
      assert chunks[..0] == [] && chunks[1..] == [];
    } else {
      ContentsFront(chunks[..n]);
      assert chunks[..n][1..] == chunks[1..][..n - 1] && chunks[1..][n - 1] == chunks[n];
      AppendAssoc(chunks[0].content, Contents(chunks[1..][..n - 1]), chunks[n].content);
    }
  }

  lemma {:induction false} DeltasFront(chunks: seq<Chunk>)
    requires chunks != []
    ensures Deltas(chunks) == chunks[0].calls + Deltas(chunks[1..])
  {
    var n := |chunks| - 1;
    if n == 0 {
      assert chunks[..0] == [] && chunks[1..] == [];
    } else {
      DeltasFront(chunks[..n]);
      assert chunks[..n][1..] == chunks[1..][..n - 1] && chunks[1..][n - 1] == chunks[n];
      AppendAssoc(chunks[0].calls, Deltas(chunks[1..][..n - 1]), chunks[n].calls);
    }
  }

  lemma NoContents()
    ensures Contents([]) == "" && Deltas([]) == []
  {
  }

  /** Grouping is undone by concatenating. */
  lemma {:induction false} GroupsJoin(chunks: seq<Chunk>, content: string, merged: seq<CallDelta>)
    requires Groups(chunks, content, merged)
    ensures Contents(chunks) == content && Deltas(chunks) == merged
    ensures forall i :: 0 <= i < |chunks| ==> chunks[i].message.None?
  {
    hide Contents, Deltas;
    if chunks == [] {
      NoContents();
    } else {
      ContentsFront(chunks);
      DeltasFront(chunks);
      GroupsJoin(chunks[1..], content[|chunks[0].content|..], merged[|chunks[0].calls|..]);
      assert forall i :: 1 <= i < |chunks| ==> chunks[i] == chunks[1..][i - 1];
    }
  }

  lemma {:induction false} NoneWhole(chunks: seq<Chunk>)
    requires forall i :: 0 <= i < |chunks| ==> chunks[i].message.None?
    ensures LastWhole(chunks) == None
  {
    if chunks != [] { NoneWhole(chunks[..|chunks| - 1]); }
  }

  lemma {:induction false} SentId(chunks: seq<Chunk>, id: string)
    requires forall i :: 0 <= i < |chunks| ==> chunks[i].id == "" || chunks[i].id == id
    requires id != "" ==> exists i :: 0 <= i < |chunks| && chunks[i].id == id
    ensures FirstChunkId(chunks) == id
  {
    if chunks != [] && chunks[0].id == "" {
      var rest := chunks[1..];
      if id != "" {
        var i :| 0 <= i < |chunks| && chunks[i].id == id;
        assert rest[i - 1] == chunks[i];
      }
      SentId(rest, id);
    }
  }

  lemma {:induction false} WholeCallsAre(ds: seq<CallDelta>, indices: seq<nat>, calls: seq<Call>)
    requires |indices| == |calls| && forall k :: 0 <= k < |indices| ==> Whole1(Of(ds, indices[k])) == calls[k]
    ensures WholeCalls(ds, indices) == calls
  {
    hide Of, Whole1;
    if indices != [] {
      var n := |indices| - 1;
      WholeCallsAre(ds, indices[..n], calls[..n]);
      assert calls == calls[..n] + [calls[n]];
    }
  }

  lemma CallsComeOut(reply: Reply, indices: seq<nat>, streams: seq<seq<CallDelta>>, merged: seq<CallDelta>)
    requires NoDup(indices) && |indices| == |streams| == |reply.calls|
    requires forall k :: 0 <= k < |streams| ==> Carries(streams[k], indices[k], reply.calls[k])
    requires Interleaves(streams, 0, merged)
    ensures WholeCalls(merged, FirstSeen(merged)) == reply.calls
  {
    hide Of, FirstSeen, Interleaves, Whole1, CutsTexts, WholeCalls, NoDup;
    StreamsComeOut(indices, streams, merged);
    forall k | 0 <= k < |indices| ensures Whole1(Of(merged, indices[k])) == reply.calls[k] {
      CarriedIsWhole(streams[k], indices[k], reply.calls[k]);
    }
    WholeCallsAre(merged, indices, reply.calls);
  }

  /** However a reply is cut, interleaved and grouped into two or more deltas, reassembling gives it back. */
  lemma ReassemblyUndoesFragmenting(chunks: seq<Chunk>, reply: Reply, indices: seq<nat>, streams: seq<seq<CallDelta>>,
        merged: seq<CallDelta>)
    requires Sends(chunks, reply, indices, streams, merged)
    ensures Reassembled(chunks) == Assembled(reply)
  {
    hide FirstSeen, Interleaves, Carries, Groups, WholeCalls, NoDup, Contents, Deltas, LastWhole, FirstChunkId;
    GroupsJoin(chunks, reply.content, merged);
    NoneWhole(chunks);
    SentId(chunks, reply.id);
    CallsComeOut(reply, indices, streams, merged);
  }

  /** Two interleavings of the same streams reassemble to the same calls in the same order. */
  lemma InterleavingIsFree(indices: seq<nat>, streams: seq<seq<CallDelta>>, a: seq<CallDelta>, b: seq<CallDelta>)
    requires Tagged(streams, indices) && Interleaves(streams, 0, a) && Interleaves(streams, 0, b)
    ensures WholeCalls(a, FirstSeen(a)) == WholeCalls(b, FirstSeen(b))
    ensures FirstSeen(a) == indices
  {
    hide Of, FirstSeen, Interleaves, Tagged;
    StreamsComeOut(indices, streams, a);
    StreamsComeOut(indices, streams, b);
    SameWholeCalls(a, b, indices);
  }

  lemma {:induction false} SameWholeCalls(a: seq<CallDelta>, b: seq<CallDelta>, order: seq<nat>)
    requires forall k :: 0 <= k < |order| ==> Of(a, order[k]) == Of(b, order[k])
    ensures WholeCalls(a, order) == WholeCalls(b, order)
  {
    hide Of, Whole1;
    if order != [] { SameWholeCalls(a, b, order[..|order| - 1]); }
  }

  // ------------------------------------------------------------ nothing is excluded

  lemma {:induction false} SeenOnce(ds: seq<CallDelta>)
    ensures NoDup(FirstSeen(ds))
  {
    if ds != [] {
      SeenOnce(ds[..|ds| - 1]);
      NoDupStep(FirstSeen(ds[..|ds| - 1]), ds[|ds| - 1].index);
    }
  }

  lemma {:induction false} SeenGrows(a: seq<CallDelta>, b: seq<CallDelta>)
    ensures FirstSeen(a) <= FirstSeen(a + b)
  {
    hide FirstSeen;
    if b == [] {
      assert a + b == a;
    } else {
      var n := |b| - 1;
      SeenGrows(a, b[..n]);
      OfStep(a + b[..n], b[n], b[n].index);
      assert a + b[..n] + [b[n]] == a + b;
    }
  }

  lemma {:induction false} OfFront(ds: seq<CallDelta>, index: nat)
    requires ds != []
    ensures Of(ds, index) == (if ds[0].index == index then [ds[0]] else []) + Of(ds[1..], index)
  {
    var n := |ds| - 1;
    if n == 0 {
      assert ds[..0] == [] && ds[1..] == [];
    } else {
      OfFront(ds[..n], index);
      assert ds[..n][1..] == ds[1..][..n - 1];
    }
  }

  lemma {:induction false} OfTagged(ds: seq<CallDelta>, index: nat)
    ensures forall i :: 0 <= i < |Of(ds, index)| ==> Of(ds, index)[i].index == index
  {
    if ds != [] { OfTagged(ds[..|ds| - 1], index); }
  }

  /** Each call's fragments among those still to come. */
  ghost function StreamsOf(ds: seq<CallDelta>, order: seq<nat>): (r: seq<seq<CallDelta>>)
    ensures |r| == |order| && forall k :: 0 <= k < |order| ==> r[k] == Of(ds, order[k])
  {
    seq(|order|, k requires 0 <= k < |order| => Of(ds, order[k]))
  }

  lemma StreamsStep(before: seq<CallDelta>, rest: seq<CallDelta>, order: seq<nat>) returns (k: nat)
    requires rest != [] && NoDup(order) && FirstSeen(before + [rest[0]]) <= order
    ensures Arrives(StreamsOf(rest, order), |FirstSeen(before)|, k, rest[0])
    ensures StreamsOf(rest, order)[k := StreamsOf(rest, order)[k][1..]] == StreamsOf(rest[1..], order)
    ensures Begun(|FirstSeen(before)|, k) == |FirstSeen(before + [rest[0]])|
  {
    hide Of, FirstSeen;
    var d, seen := rest[0], FirstSeen(before);
    OfStep(before, d, d.index);
    if d.index in seen {
      k :| 0 <= k < |seen| && seen[k] == d.index;
    } else {
      k := |seen|;
    }
    assert order[k] == FirstSeen(before + [d])[k] == d.index;
    var a, b := StreamsOf(rest, order), StreamsOf(rest[1..], order);
    forall j | 0 <= j < |order| ensures a[j] == if j == k then [d] + b[j] else b[j] {
      OfFront(rest, order[j]);
      assert j != k ==> order[j] != order[k];
      assert [] + b[j] == b[j];
    }
    assert a[k := a[k][1..]] == b;
  }

  lemma {:induction false} SuffixInterleaves(before: seq<CallDelta>, rest: seq<CallDelta>)
    ensures Interleaves(StreamsOf(rest, FirstSeen(before + rest)), |FirstSeen(before)|, rest)
    decreases |rest|
  {
    hide Of, FirstSeen, Arrives;
    var order := FirstSeen(before + rest);
    if rest == [] {
      assert before + rest == before;
      forall k | 0 <= k < |order| ensures Of(rest, order[k]) == [] { OfNothing(order[k]); }
    } else {
      assert before + [rest[0]] + rest[1..] == before + rest;
      SeenGrows(before + [rest[0]], rest[1..]);
      SeenOnce(before + rest);
      var k := StreamsStep(before, rest, order);
      SuffixInterleaves(before + [rest[0]], rest[1..]);
    }
  }

  lemma OfNothing(index: nat)
    ensures Of([], index) == []
  {
  }

  /** Whatever order fragments arrive in, they are an interleaving of their calls' own streams. */
  lemma EveryArrivalInterleaves(merged: seq<CallDelta>)
    ensures Tagged(StreamsOf(merged, FirstSeen(merged)), FirstSeen(merged))
    ensures Interleaves(StreamsOf(merged, FirstSeen(merged)), 0, merged)
  {
    hide Of, FirstSeen, Interleaves;
    SeenOnce(merged);
    SuffixInterleaves([], merged);
    assert [] + merged == merged && FirstSeen([]) == [] by { NothingSeen(); }
    forall k | 0 <= k < |FirstSeen(merged)|
      ensures forall i :: 0 <= i < |Of(merged, FirstSeen(merged)[k])| ==>
                Of(merged, FirstSeen(merged)[k])[i].index == FirstSeen(merged)[k] {
      OfTagged(merged, FirstSeen(merged)[k]);
    }
  }

  lemma NothingSeen()
    ensures FirstSeen([]) == []
  {
  }

  /** One whole fragment for each call. */
  function WholeDeltas(calls: seq<Call>): (ds: seq<CallDelta>)
    ensures |ds| == |calls|
    ensures forall k :: 0 <= k < |ds| ==>
              ds[k] == CallDelta(k, calls[k].id, Some(calls[k].kind), calls[k].name, calls[k].arguments)
  {
    seq(|calls|, k requires 0 <= k < |calls| =>
      CallDelta(k, calls[k].id, Some(calls[k].kind), calls[k].name, calls[k].arguments))
  }

  ghost function Singles(ds: seq<CallDelta>, from: nat): (r: seq<seq<CallDelta>>)
    ensures |r| == |ds| && forall k :: 0 <= k < |ds| ==> r[k] == if k < from then [] else [ds[k]]
  {
    seq(|ds|, k requires 0 <= k < |ds| => if k < from then [] else [ds[k]])
  }

  lemma {:induction false} SinglesInterleave(ds: seq<CallDelta>, from: nat)
    requires from <= |ds|
    ensures Interleaves(Singles(ds, from), from, ds[from..])
    decreases |ds| - from
  {
    if from < |ds| {
      SinglesInterleave(ds, from + 1);
      var streams := Singles(ds, from);
      assert streams[from] == [ds[from]] && [ds[from]][1..] == [];
      var rest := streams[from := []];
      assert forall k :: 0 <= k < |ds| ==> rest[k] == Singles(ds, from + 1)[k];
      assert rest == Singles(ds, from + 1);
      assert ds[from..][1..] == ds[from + 1..];
      assert Arrives(streams, from, from, ds[from..][0]);
    }
  }

  function Numbers(n: nat): (r: seq<nat>)
    ensures |r| == n && forall k :: 0 <= k < n ==> r[k] == k
  {
    seq(n, k => k)
  }

  lemma WholeCarries(c: Call, k: nat)
    ensures Carries([CallDelta(k, c.id, Some(c.kind), c.name, c.arguments)], k, c)
  {
    var d := CallDelta(k, c.id, Some(c.kind), c.name, c.arguments);
    assert [d][0].id == c.id && [d][1..] == [];
    assert c.name[|c.name|..] == "" && c.arguments[|c.arguments|..] == "";
    assert CutsTexts([d][1..], "", "");
  }

  /** The two chunks: the content cut at any place, all calls in the first. */
  lemma TwoGroups(reply: Reply, at: nat, ds: seq<CallDelta>)
    requires at <= |reply.content|
    ensures Groups([Chunk(reply.id, None, reply.content[..at], ds, None),
                    Chunk("", None, reply.content[at..], [], reply.usage)], reply.content, ds)
  {
    var a, b := Chunk(reply.id, None, reply.content[..at], ds, None),
                Chunk("", None, reply.content[at..], [], reply.usage);
    assert [a, b][1..] == [b] && [b][1..] == [];
    assert reply.content[at..][|reply.content| - at..] == "" && ds[|ds|..] == [];
    assert Groups([], "", []);
    assert Groups([b], reply.content[at..], []);
  }

  /** Every reply can be sent, its content cut in two wherever one likes. */
  lemma EveryReplyCanBeSent(reply: Reply, at: nat)
    returns (chunks: seq<Chunk>, indices: seq<nat>, streams: seq<seq<CallDelta>>, merged: seq<CallDelta>)
    requires at <= |reply.content|
    ensures Sends(chunks, reply, indices, streams, merged)
    ensures |chunks| == 2 && chunks[0].content == reply.content[..at]
  {
    hide Interleaves, Groups, Carries;
    merged := WholeDeltas(reply.calls);
    indices, streams := Numbers(|reply.calls|), Singles(merged, 0);
    chunks := [Chunk(reply.id, None, reply.content[..at], merged, None),
               Chunk("", None, reply.content[at..], [], reply.usage)];
    SinglesInterleave(merged, 0);
    assert merged[0..] == merged;
    TwoGroups(reply, at, merged);
    forall k | 0 <= k < |streams| ensures Carries(streams[k], indices[k], reply.calls[k]) {
      WholeCarries(reply.calls[k], k);
    }
    assert chunks[0].id == reply.id;
  }
}
