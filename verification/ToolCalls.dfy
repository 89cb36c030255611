/** Reassembly of streamed tool calls: the accumulation loop of `ChatStream` after decoding. */
module ToolCalls {
  import opened StableSort
  import opened Text

  datatype Fragment = Fragment(index: int, id: string, name: string, args: string)

  /** A streamed line: nothing of use, a chunk whose first choice has a delta, or the end mark. */
  datatype Line = Noise | Chunk(content: string, fragments: seq<Fragment>) | EndMark

  datatype ToolCall = ToolCall(id: string, name: string, args: string)

  // ---- What a stream means ----

  /** The lines before the end mark. */
  function Body(lines: seq<Line>): seq<Line> {
    if lines == [] || lines[0].EndMark? then [] else [lines[0]] + Body(lines[1..])
  }

  function Fragments(body: seq<Line>): seq<Fragment> {
    if body == [] then []
    else
      var last := body[|body| - 1];
      Fragments(body[..|body| - 1]) + (if last.Chunk? then last.fragments else [])
  }

  /** The non-empty content deltas, in order. */
  function Deltas(body: seq<Line>): seq<string> {
    if body == [] then []
    else
      var last := body[|body| - 1];
      Deltas(body[..|body| - 1]) + (if last.Chunk? && last.content != "" then [last.content] else [])
  }

  /** The fragments of one index, in order. */
  function OfIndex(frags: seq<Fragment>, k: int): seq<Fragment> {
    if frags == [] then []
    else
      var last := frags[|frags| - 1];
      OfIndex(frags[..|frags| - 1], k) + (if last.index == k then [last] else [])
  }

  predicate HasIndex(frags: seq<Fragment>, k: int) {
    exists i :: 0 <= i < |frags| && frags[i].index == k
  }

  /** Indices in order of first appearance. */
  function FirstSeen(frags: seq<Fragment>): (order: seq<int>)
    ensures forall k :: k in order <==> HasIndex(frags, k)
    ensures forall i, j :: 0 <= i < j < |order| ==> order[i] != order[j]
  {
    if frags == [] then []
    else
      var n := |frags| - 1;
      var order := FirstSeen(frags[..n]);
      assert frags == frags[..n] + [frags[n]];
      if frags[n].index in order then order else order + [frags[n].index]
  }

  /** Where an index appears first. */
  function FirstAt(frags: seq<Fragment>, k: int): (n: nat)
    requires HasIndex(frags, k)
    ensures n < |frags| && frags[n].index == k && forall i :: 0 <= i < n ==> frags[i].index != k
  {
    if frags[0].index == k then 0
    else
      assert HasIndex(frags[1..], k) by {
        var i :| 0 <= i < |frags| && frags[i].index == k;
        assert frags[1..][i - 1].index == k;
      }
      1 + FirstAt(frags[1..], k)
  }

  /** An index that appears before position `n` appears first before it, and at the same place in that part. */
  lemma FirstAtPrefix(frags: seq<Fragment>, n: nat, k: int)
    requires n <= |frags| && HasIndex(frags[..n], k)
    ensures HasIndex(frags, k) && FirstAt(frags, k) == FirstAt(frags[..n], k) < n
  {
    var i := FirstAt(frags[..n], k);
    assert frags[i].index == k;
    forall j | 0 <= j < i ensures frags[j].index != k { assert frags[..n][j].index != k; }
  }

  /** The order of the indices is the order of their first positions. */
  lemma {:induction false} FirstSeenInOrder(frags: seq<Fragment>)
    ensures forall i, j ::
        0 <= i < j < |FirstSeen(frags)| ==> FirstAt(frags, FirstSeen(frags)[i]) < FirstAt(frags, FirstSeen(frags)[j])
  {
    if frags != [] {
      hide FirstAt;
      var n := |frags| - 1;
      var front, order := frags[..n], FirstSeen(frags[..n]);
      FirstSeenInOrder(front);
      forall k | k in order
        ensures HasIndex(frags, k) && FirstAt(frags, k) == FirstAt(front, k) < n
      {
        FirstAtPrefix(frags, n, k);
      }
      if frags[n].index !in order {
        NewIndexIsLast(frags);
      }
    }
  }

  lemma NewIndexIsLast(frags: seq<Fragment>)
    requires frags != [] && !HasIndex(frags[..|frags| - 1], frags[|frags| - 1].index)
    ensures HasIndex(frags, frags[|frags| - 1].index) && FirstAt(frags, frags[|frags| - 1].index) == |frags| - 1
  {
    var n := |frags| - 1;
    assert frags[n].index == frags[n].index;
    forall i | 0 <= i < n ensures frags[i].index != frags[n].index { assert frags[..n][i] == frags[i]; }
  }

  function LastNonEmpty(parts: seq<string>): string {
    if parts == [] then ""
    else if parts[|parts| - 1] != "" then parts[|parts| - 1] else LastNonEmpty(parts[..|parts| - 1])
  }

  function Ids(fs: seq<Fragment>): (r: seq<string>)
    ensures |r| == |fs| && forall i :: 0 <= i < |fs| ==> r[i] == fs[i].id
  {
    seq(|fs|, i requires 0 <= i < |fs| => fs[i].id)
  }

  function Names(fs: seq<Fragment>): (r: seq<string>)
    ensures |r| == |fs| && forall i :: 0 <= i < |fs| ==> r[i] == fs[i].name
  {
    seq(|fs|, i requires 0 <= i < |fs| => fs[i].name)
  }

  function Args(fs: seq<Fragment>): (r: seq<string>)
    ensures |r| == |fs| && forall i :: 0 <= i < |fs| ==> r[i] == fs[i].args
  {
    seq(|fs|, i requires 0 <= i < |fs| => fs[i].args)
  }

  /** The call that the fragments of one index spell. */
  function CallOf(fs: seq<Fragment>): ToolCall {
    ToolCall(LastNonEmpty(Ids(fs)), LastNonEmpty(Names(fs)), Joined(Args(fs)))
  }

  // ---- The loop ----

  /** The accumulated calls are those of the fragments read so far. */
  ghost predicate Accumulates(acc: map<int, ToolCall>, order: seq<int>, frags: seq<Fragment>) {
    && order == FirstSeen(frags)
    && acc.Keys == (set k | k in order)
    && forall k :: k in acc ==> acc[k] == CallOf(OfIndex(frags, k))
  }

  /** What one fragment does to its accumulator. */
  function Extend(a: ToolCall, f: Fragment): ToolCall {
    ToolCall(if f.id != "" then f.id else a.id, if f.name != "" then f.name else a.name, a.args + f.args)
  }

  lemma CallExtends(fs: seq<Fragment>, f: Fragment)
    ensures CallOf(fs + [f]) == Extend(CallOf(fs), f)
  {
    assert Ids(fs + [f])[..|fs|] == Ids(fs);
    assert Names(fs + [f])[..|fs|] == Names(fs);
    assert Args(fs + [f])[..|fs|] == Args(fs);
  }

  lemma {:induction false} UnseenIsEmpty(frags: seq<Fragment>, k: int)
    requires k !in FirstSeen(frags)
    ensures OfIndex(frags, k) == []
  {
    if frags != [] { UnseenIsEmpty(frags[..|frags| - 1], k); }
  }

  lemma SeenOne(frags: seq<Fragment>, f: Fragment)
    ensures FirstSeen(frags + [f])
        == if f.index in FirstSeen(frags) then FirstSeen(frags) else FirstSeen(frags) + [f.index]
  {
    assert (frags + [f])[..|frags|] == frags;
  }

  lemma OfIndexOne(frags: seq<Fragment>, f: Fragment, k: int)
    ensures OfIndex(frags + [f], k) == if k == f.index then OfIndex(frags, k) + [f] else OfIndex(frags, k)
  {
    assert (frags + [f])[..|frags|] == frags;
  }

  lemma AccumulateOne(acc: map<int, ToolCall>, order: seq<int>, frags: seq<Fragment>, f: Fragment)
    requires Accumulates(acc, order, frags)
    ensures var a := if f.index in acc then acc[f.index] else ToolCall("", "", "");
            Accumulates(acc[f.index := Extend(a, f)], if f.index in acc then order else order + [f.index], frags + [f])
  {
    hide CallOf, Extend, OfIndex, FirstSeen, HasIndex;
    SeenOne(frags, f);
    if f.index !in acc {
      UnseenIsEmpty(frags, f.index);
      EmptyCall();
    }
    CallExtends(OfIndex(frags, f.index), f);
    forall k ensures OfIndex(frags + [f], k) == if k == f.index then OfIndex(frags, k) + [f] else OfIndex(frags, k) {
      OfIndexOne(frags, f, k);
    }
  }

  lemma EmptyCall()
    ensures CallOf([]) == ToolCall("", "", "")
  {
  }

  method AddFragments(acc0: map<int, ToolCall>, order0: seq<int>, fs: seq<Fragment>, ghost seen: seq<Fragment>)
    returns (acc: map<int, ToolCall>, order: seq<int>)
    requires Accumulates(acc0, order0, seen)
    ensures Accumulates(acc, order, seen + fs)
  {
    hide Accumulates;
    acc, order := acc0, order0;
    assert seen + fs[..0] == seen;
    for i := 0 to |fs|
      invariant Accumulates(acc, order, seen + fs[..i])
    {
      AccumulateOne(acc, order, seen + fs[..i], fs[i]);
      assert seen + fs[..i + 1] == seen + fs[..i] + [fs[i]];
      acc, order := AddFragment(acc, order, fs[i]);
    }
    assert fs[..|fs|] == fs;
  }

  /** One fragment: make the accumulator on first sight, overwrite id and name when given, append arguments. */
  method AddFragment(acc0: map<int, ToolCall>, order0: seq<int>, f: Fragment)
    returns (acc: map<int, ToolCall>, order: seq<int>)
    ensures acc == acc0[f.index := Extend(if f.index in acc0 then acc0[f.index] else ToolCall("", "", ""), f)]
    ensures order == if f.index in acc0 then order0 else order0 + [f.index]
  {
    acc, order := acc0, order0;
    var a := ToolCall("", "", "");
    if f.index in acc { a := acc[f.index]; } else { order := order + [f.index]; }
    if f.id != "" { a := a.(id := f.id); }
    if f.name != "" { a := a.(name := f.name); }
    a := a.(args := a.args + f.args);
    acc := acc[f.index := a];
  }

  lemma {:induction false} BodyIsPrefix(lines: seq<Line>, i: nat)
    requires i <= |lines| && forall j :: 0 <= j < i ==> !lines[j].EndMark?
    ensures Body(lines) == lines[..i] + Body(lines[i..])
  {
    if i == 0 {
      assert lines[0..] == lines;
    } else {
      BodyIsPrefix(lines[1..], i - 1);
      assert lines[1..][i - 1..] == lines[i..];
      assert [lines[0]] + lines[1..][..i - 1] == lines[..i];
    }
  }

  ghost predicate Read(acc: map<int, ToolCall>, order: seq<int>, text: string, reported: seq<string>, body: seq<Line>) {
    Accumulates(acc, order, Fragments(body)) && reported == Deltas(body) && text == Joined(reported)
  }

  /** One line: report and append its content when there is some, then accumulate its fragments. */
  method ReadLine(acc0: map<int, ToolCall>, order0: seq<int>, text0: string, reported0: seq<string>, line: Line,
      ghost body: seq<Line>)
    returns (acc: map<int, ToolCall>, order: seq<int>, text: string, reported: seq<string>)
    requires Read(acc0, order0, text0, reported0, body)
    ensures Read(acc, order, text, reported, body + [line])
  {
    hide Accumulates;
    acc, order, text, reported := acc0, order0, text0, reported0;
    assert (body + [line])[..|body|] == body;
    assert Fragments(body) + [] == Fragments(body) && Deltas(body) + [] == Deltas(body);
    if line.Chunk? {
      if line.content != "" {
        assert (reported + [line.content])[..|reported|] == reported;
        text := text + line.content;
        reported := reported + [line.content];
      }
      acc, order := AddFragments(acc, order, line.fragments, Fragments(body));
    }
  }

  /** Reads lines until the end mark, accumulating calls and text. */
  method ReadStream(lines: seq<Line>)
    returns (acc: map<int, ToolCall>, order: seq<int>, text: string, reported: seq<string>)
    ensures Read(acc, order, text, reported, Body(lines))
  {
    acc, order, text, reported := map[], [], "", [];
    var i := 0;
    while i < |lines| && !lines[i].EndMark?
      invariant 0 <= i <= |lines| && forall j :: 0 <= j < i ==> !lines[j].EndMark?
      invariant Read(acc, order, text, reported, lines[..i])
    {
      hide Read;
      assert lines[..i + 1] == lines[..i] + [lines[i]];
      acc, order, text, reported := ReadLine(acc, order, text, reported, lines[i], lines[..i]);
      i := i + 1;
    }
    BodyIsPrefix(lines, i);
    assert Body(lines[i..]) == [];
    assert lines[..i] + [] == lines[..i];
  }

  /** What `ChatStream` returns: one call per index in order of first appearance, and the text it reported. */
  method Assemble(lines: seq<Line>) returns (tools: seq<ToolCall>, text: string, reported: seq<string>)
    ensures var frags := Fragments(Body(lines));
            |tools| == |FirstSeen(frags)| && forall i ::
                0 <= i < |tools| ==> tools[i] == CallOf(OfIndex(frags, FirstSeen(frags)[i]))
    ensures reported == Deltas(Body(lines)) && text == Joined(reported)
  {
    hide Joined, Deltas, CallOf, Fragments;
    var acc, order;
    acc, order, text, reported := ReadStream(lines);
    ghost var frags := Fragments(Body(lines));
    tools := [];
    for k := 0 to |order|
      invariant |tools| == k && forall j :: 0 <= j < k ==> tools[j] == CallOf(OfIndex(frags, order[j]))
    {
      tools := tools + [acc[order[k]]];
    }
  }

  // ---- Reassembly undoes fragmentation ----

  /** `fs` is `call` cut into pieces: id and name on the first, arguments spread over all. */
  ghost predicate Cuts(fs: seq<Fragment>, call: ToolCall) {
    && fs != [] && fs[0].id == call.id && fs[0].name == call.name
    && (forall i :: 1 <= i < |fs| ==> fs[i].id == "" && fs[i].name == "")
    && Joined(Args(fs)) == call.args
  }

  lemma {:induction false} OnlyFirst(parts: seq<string>)
    requires parts != [] && forall i :: 1 <= i < |parts| ==> parts[i] == ""
    ensures LastNonEmpty(parts) == parts[0]
  {
    if |parts| > 1 { OnlyFirst(parts[..|parts| - 1]); }
  }

  lemma CutsSpell(fs: seq<Fragment>, call: ToolCall)
    requires Cuts(fs, call)
    ensures CallOf(fs) == call
  {
    OnlyFirst(Ids(fs));
    OnlyFirst(Names(fs));
  }

  lemma CutsAreSome(fs: seq<Fragment>, call: ToolCall)
    requires Cuts(fs, call)
    ensures fs != []
  {
  }

  lemma {:induction false} OfSeenIsSome(frags: seq<Fragment>, k: int)
    requires OfIndex(frags, k) != []
    ensures k in FirstSeen(frags)
  {
    if k !in FirstSeen(frags) { UnseenIsEmpty(frags, k); }
  }

  /**
   However the calls are cut, and however the pieces of different indices are interleaved, the
   indices in order of first appearance are exactly the calls' indices, each once, and the call
   rebuilt for each index is the original.
   */
  lemma ReassemblyUndoesFragmentation(frags: seq<Fragment>, calls: map<int, ToolCall>)
    requires forall i :: 0 <= i < |frags| ==> frags[i].index in calls
    requires forall k :: k in calls ==> Cuts(OfIndex(frags, k), calls[k])
    ensures (set k | k in FirstSeen(frags)) == calls.Keys && |FirstSeen(frags)| == |calls|
    ensures forall i, j ::
        0 <= i < j < |FirstSeen(frags)| ==> FirstAt(frags, FirstSeen(frags)[i]) < FirstAt(frags, FirstSeen(frags)[j])
    ensures forall k :: k in calls ==> CallOf(OfIndex(frags, k)) == calls[k]
  {
    hide CallOf, OfIndex, Cuts, FirstAt;
    var order := FirstSeen(frags);
    FirstSeenInOrder(frags);
    forall k | k in order ensures k in calls {
      assert HasIndex(frags, k);
    }
    forall k | k in calls ensures k in order && CallOf(OfIndex(frags, k)) == calls[k] {
      CutsSpell(OfIndex(frags, k), calls[k]);
      CutsAreSome(OfIndex(frags, k), calls[k]);
      OfSeenIsSome(frags, k);
    }
    assert (set k | k in order) == calls.Keys by {
      forall k ensures k in (set x | x in order) <==> k in calls.Keys { }
    }
    DistinctCount(order);
    assert |calls.Keys| == |calls|;
  }
}
