/** The files as a user sees them: each is a sequence of bytes, and each open one has a cursor. */
module LfsSpec {
  import opened LfsDisk
  import opened Sequences

  const SYSERR := -1
  const OK := 1
  const EOF := -2

  datatype Handle = Closed | Open(file: int, pos: int)

  datatype Store = Store(texts: seq<seq<byte>>, handles: seq<Handle>)

  /** Every open handle is for a file and points into it or at its end; no file is open twice. */
  ghost predicate StoreOK(st: Store) {
    && (forall i :: 0 <= i < |st.handles| ==> HandleOK(st, i))
    && (forall i, j :: 0 <= i < |st.handles| && 0 <= j < |st.handles| && i != j ==> NotShared(st, i, j))
  }

  predicate HandleOK(st: Store, i: int)
    requires 0 <= i < |st.handles|
  {
    st.handles[i].Open? ==>
      0 <= st.handles[i].file < |st.texts|
      && 0 <= st.handles[i].pos <= |st.texts[st.handles[i].file]|
  }

  predicate NotShared(st: Store, i: int, j: int)
    requires 0 <= i < |st.handles| && 0 <= j < |st.handles|
  {
    st.handles[i].Open? && st.handles[j].Open? ==> st.handles[i].file != st.handles[j].file
  }

  /** The text with the byte at the cursor replaced, or one more byte at its end. */
  function PutText(text: seq<byte>, pos: int, ch: byte): seq<byte>
    requires 0 <= pos <= |text|
  {
    if pos < |text| then text[pos := ch] else text + [ch]
  }

  function With(st: Store, i: int, text: seq<byte>, pos: int): Store
    requires 0 <= i < |st.handles| && st.handles[i].Open? && HandleOK(st, i)
  {
    var f := st.handles[i].file;
    Store(st.texts[f := text], st.handles[i := Open(f, pos)])
  }

  datatype Reply = Reply(store: Store, value: int)

  function Put(st: Store, i: int, ch: byte): Reply
    requires 0 <= i < |st.handles| && HandleOK(st, i)
  {
    match st.handles[i]
    case Closed => Reply(st, SYSERR)
    case Open(f, pos) => Reply(With(st, i, PutText(st.texts[f], pos, ch), pos + 1), OK)
  }

  function Get(st: Store, i: int): Reply
    requires 0 <= i < |st.handles| && HandleOK(st, i)
  {
    match st.handles[i]
    case Closed => Reply(st, SYSERR)
    case Open(f, pos) =>
      if pos == |st.texts[f]| then Reply(st, EOF) else Reply(With(st, i, st.texts[f], pos + 1), st.texts[f][pos])
  }

  function Seek(st: Store, i: int, offset: nat): Reply
    requires 0 <= i < |st.handles| && HandleOK(st, i)
  {
    match st.handles[i]
    case Closed => Reply(st, SYSERR)
    case Open(f, pos) =>
      if offset > |st.texts[f]| then Reply(st, SYSERR) else Reply(With(st, i, st.texts[f], offset), OK)
  }

  /** An empty file keeps its cursor, which is at 0 anyway. */
  function Truncate(st: Store, i: int): Reply
    requires 0 <= i < |st.handles| && HandleOK(st, i)
  {
    match st.handles[i]
    case Closed => Reply(st, SYSERR)
    case Open(f, _) => Reply(With(st, i, [], 0), OK)
  }

  function Close(st: Store, i: int): Reply
    requires 0 <= i < |st.handles|
  {
    match st.handles[i]
    case Closed => Reply(st, SYSERR)
    case Open(_, _) => Reply(st.(handles := st.handles[i := Closed]), OK)
  }

  // ---------- Many bytes ----------

  /** The text with `b` in place of what was at `pos`, and longer if `b` goes beyond its end. */
  function Overwrite(text: seq<byte>, pos: int, b: seq<byte>): seq<byte>
    requires 0 <= pos <= |text|
  {
    text[..pos] + b + text[Min(pos + |b|, |text|)..]
  }

  lemma PutOverwrite(text: seq<byte>, pos: int, b: seq<byte>, k: int)
    requires 0 <= pos <= |text| && 0 <= k < |b|
    ensures 0 <= pos + k <= |Overwrite(text, pos, b[..k])|
    ensures PutText(Overwrite(text, pos, b[..k]), pos + k, b[k]) == Overwrite(text, pos, b[..k + 1])
  {
    var t, t' := Overwrite(text, pos, b[..k]), Overwrite(text, pos, b[..k + 1]);
    forall j | 0 <= j < |t'| ensures j < |PutText(t, pos + k, b[k])| && t'[j] == PutText(t, pos + k, b[k])[j] { }
  }

  /** Writing bytes one after the other. */
  function Write(st: Store, i: int, b: seq<byte>): Store
    requires 0 <= i < |st.handles| && HandleOK(st, i) && st.handles[i].Open?
  {
    var h := st.handles[i];
    With(st, i, Overwrite(st.texts[h.file], h.pos, b), h.pos + |b|)
  }

  /** What reading up to `n` bytes yields. */
  function Available(st: Store, i: int, n: nat): (b: seq<byte>)
    requires 0 <= i < |st.handles| && HandleOK(st, i) && st.handles[i].Open?
    ensures |b| <= n
  {
    var h := st.handles[i];
    st.texts[h.file][h.pos..Min(h.pos + n, |st.texts[h.file]|)]
  }

  lemma WriteOK(st: Store, i: int, b: seq<byte>)
    requires 0 <= i < |st.handles| && HandleOK(st, i) && st.handles[i].Open?
    ensures HandleOK(Write(st, i, b), i)
  {
  }

  /** What is written at a place is read back there, and nothing before or after it has changed. */
  lemma WriteSeekRead(st: Store, i: int, b: seq<byte>)
    requires StoreOK(st) && 0 <= i < |st.handles| && st.handles[i].Open?
    ensures
      var f, pos := st.handles[i].file, st.handles[i].pos;
      var st1 := Write(st, i, b);
      && StoreOK(st1) && Seek(st1, i, pos).value == OK
      && Available(Seek(st1, i, pos).store, i, |b|) == b
      && |st1.texts[f]| == (if pos + |b| > |st.texts[f]| then pos + |b| else |st.texts[f]|)
      && st1.texts[f][..pos] == st.texts[f][..pos]
      && (pos + |b| <= |st.texts[f]| ==> st1.texts[f][pos + |b|..] == st.texts[f][pos + |b|..])
      && forall g :: 0 <= g < |st.texts| && g != f ==> st1.texts[g] == st.texts[g]
  {
    var f, pos := st.handles[i].file, st.handles[i].pos;
    assert HandleOK(st, i);
    var st1 := Write(st, i, b);
    forall j | 0 <= j < |st1.handles| ensures HandleOK(st1, j) {
      assert HandleOK(st, j);
      if j != i { assert NotShared(st, i, j); }
    }
    forall j, j' | 0 <= j < |st1.handles| && 0 <= j' < |st1.handles| && j != j' ensures NotShared(st1, j, j') {
      assert NotShared(st, j, j');
    }
  }

  // ---------- Laws ----------

  /** A truncated file is empty, and what is then written to it is all it holds. */
  lemma TruncateWriteRead(st: Store, i: int, b: seq<byte>)
    requires StoreOK(st) && 0 <= i < |st.handles| && st.handles[i].Open?
    ensures
      var f := st.handles[i].file;
      var st1 := Truncate(st, i).store;
      && Truncate(st, i).value == OK && HandleOK(st1, i) && st1.handles[i] == Open(f, 0)
      && 0 <= f < |st.texts| && st1.texts == st.texts[f := []] && Get(st1, i) == Reply(st1, EOF)
      && Write(st1, i, b).texts == st.texts[f := b]
      && forall j :: 0 <= j < |st.handles| && j != i ==> st1.handles[j] == st.handles[j]
  {
    var f := st.handles[i].file;
    assert HandleOK(st, i);
    assert Overwrite([], 0, b) == b;
  }

  /** Through a handle that is not open, every operation fails and changes nothing. */
  lemma ClosedRefuses(st: Store, op: Op)
    requires CanDo(st, op) && st.handles[op.i] == Closed
    ensures HandleOK(st, op.i) && Do(st, op) == Reply(st, SYSERR)
  {
  }

  // ---------- Runs ----------

  datatype Op = OpPut(i: nat, ch: byte) | OpGet(i: nat) | OpSeek(i: nat,
      offset: nat) | OpTruncate(i: nat) | OpClose(i: nat)

  predicate CanDo(st: Store, op: Op) {
    op.i < |st.handles|
  }

  function Do(st: Store, op: Op): Reply
    requires CanDo(st, op) && HandleOK(st, op.i)
  {
    match op
    case OpPut(i, ch) => Put(st, i, ch)
    case OpGet(i) => Get(st, i)
    case OpSeek(i, offset) => Seek(st, i, offset)
    case OpTruncate(i) => Truncate(st, i)
    case OpClose(i) => Close(st, i)
  }

  /** Every operation keeps the cursors inside their files. */
  lemma DoKeeps(st: Store, op: Op)
    requires StoreOK(st) && CanDo(st, op)
    ensures HandleOK(st, op.i) && StoreOK(Do(st, op).store) && |Do(st, op).store.handles| == |st.handles|
  {
    assert HandleOK(st, op.i);
    var st1 := Do(st, op).store;
    forall j | 0 <= j < |st1.handles| ensures HandleOK(st1, j) {
      assert HandleOK(st, j);
      if j != op.i { assert NotShared(st, op.i, j); }
    }
    forall j, j' | 0 <= j < |st1.handles| && 0 <= j' < |st1.handles| && j != j' ensures NotShared(st1, j, j') {
      assert NotShared(st, j, j');
    }
  }

  predicate CanRun(st: Store, ops: seq<Op>) {
    forall k :: 0 <= k < |ops| ==> CanDo(st, ops[k])
  }

  function RunOps(st: Store, ops: seq<Op>): Store
    decreases |ops|
  {
    if ops == [] || !CanDo(st, ops[0]) || !HandleOK(st, ops[0].i) then st else RunOps(Do(st, ops[0]).store, ops[1..])
  }

  /** A file that has been closed stays closed, whatever is done. */
  lemma {:induction false} StaysClosed(st: Store, ops: seq<Op>, i: int)
    requires StoreOK(st) && CanRun(st, ops) && 0 <= i < |st.handles|
    ensures |RunOps(Close(st, i).store, ops).handles| == |st.handles|
              && RunOps(Close(st, i).store, ops).handles[i] == Closed
    decreases |ops|
  {
    ClosedKeeps(Close(st, i).store, ops, i);
  }

  lemma {:induction false} ClosedKeeps(st: Store, ops: seq<Op>, i: int)
    requires CanRun(st, ops) && 0 <= i < |st.handles| && st.handles[i] == Closed
    ensures |RunOps(st, ops).handles| == |st.handles| && RunOps(st, ops).handles[i] == Closed
    decreases |ops|
  {
    if ops != [] && HandleOK(st, ops[0].i) {
      var st1 := Do(st, ops[0]).store;
      assert |st1.handles| == |st.handles| && st1.handles[i] == Closed;
      ClosedKeeps(st1, ops[1..], i);
    }
  }

  /** After a truncation a read replies EOF, whatever was done through other handles in between. */
  lemma TruncatedReadsEof(st: Store, ops: seq<Op>, i: int)
    requires StoreOK(st) && CanRun(st, ops) && 0 <= i < |st.handles| && st.handles[i].Open?
    requires forall k :: 0 <= k < |ops| ==> ops[k].i != i
    ensures
      HandleOK(st, i)
      && var st1 := RunOps(Truncate(st, i).store, ops);
      i < |st1.handles| && HandleOK(st1, i) && Get(st1, i) == Reply(st1, EOF)
  {
    assert HandleOK(st, i);
    DoKeeps(st, OpTruncate(i));
    TruncateWriteRead(st, i, []);
    OthersUntouched(Truncate(st, i).store, ops, i);
  }

  /** Whatever is done through other handles, in any order, a file keeps its bytes and its handle its cursor. */
  lemma {:induction false} OthersUntouched(st: Store, ops: seq<Op>, i: int)
    requires StoreOK(st) && CanRun(st, ops) && 0 <= i < |st.handles| && st.handles[i].Open?
    requires forall k :: 0 <= k < |ops| ==> ops[k].i != i
    ensures
      var st' := RunOps(st, ops);
      && |st'.texts| == |st.texts| && |st'.handles| == |st.handles|
      && st'.handles[i] == st.handles[i] && HandleOK(st, i)
         && st'.texts[st.handles[i].file] == st.texts[st.handles[i].file]
    decreases |ops|
  {
    assert HandleOK(st, i);
    if ops != [] {
      var op := ops[0];
      DoKeeps(st, op);
      assert NotShared(st, i, op.i);
      var st1 := Do(st, op).store;
      OthersUntouched(st1, ops[1..], i);
    }
  }

  /** What the operations of a run return. */
  function RepliesOf(st: Store, ops: seq<Op>): seq<int>
    decreases |ops|
  {
    if ops == [] || !CanDo(st, ops[0]) || !HandleOK(st, ops[0].i) then []
    else [Do(st, ops[0]).value] + RepliesOf(Do(st, ops[0]).store, ops[1..])
  }

  lemma {:induction false} RunAppend(st: Store, a: seq<Op>, b: seq<Op>)
    requires StoreOK(st) && CanRun(st, a)
    ensures RunOps(st, a + b) == RunOps(RunOps(st, a), b)
    ensures RepliesOf(st, a + b) == RepliesOf(st, a) + RepliesOf(RunOps(st, a), b)
    ensures StoreOK(RunOps(st, a)) && |RunOps(st, a).handles| == |st.handles|
    decreases |a|
  {
    hide Do, StoreOK;
    if a == [] {
      assert a + b == b;
    } else {
      DoKeeps(st, a[0]);
      RunAppend(Do(st, a[0]).store, a[1..], b);
      assert (a + b)[1..] == a[1..] + b;
    }
  }

  /** The first operation of a run. */
  lemma One(st: Store, op: Op, ops: seq<Op>)
    requires CanDo(st, op) && HandleOK(st, op.i)
    ensures RepliesOf(st, [op] + ops) == [Do(st, op).value] + RepliesOf(Do(st, op).store, ops)
    ensures RunOps(st, [op] + ops) == RunOps(Do(st, op).store, ops)
  {
    assert ([op] + ops)[1..] == ops;
  }

  function Puts(i: nat, b: seq<byte>): seq<Op> {
    if b == [] then [] else [OpPut(i, b[0])] + Puts(i, b[1..])
  }

  function Gets(i: nat, n: nat): seq<Op> {
    if n == 0 then [] else [OpGet(i)] + Gets(i, n - 1)
  }

  /** Bytes put one after the other at the end are appended. */
  lemma {:induction false} PutsAppend(st: Store, i: nat, b: seq<byte>)
    requires i < |st.handles| && HandleOK(st, i) && st.handles[i].Open?
    requires st.handles[i].pos == |st.texts[st.handles[i].file]|
    ensures CanRun(st, Puts(i, b)) && RepliesOf(st, Puts(i, b)) == seq(|b|, _ => OK)
    ensures
      var f, pos := st.handles[i].file, st.handles[i].pos;
      RunOps(st, Puts(i, b)) == Store(st.texts[f := st.texts[f] + b], st.handles[i := Open(f, pos + |b|)])
    decreases |b|
  {
    var f, pos := st.handles[i].file, st.handles[i].pos;
    if b == [] {
      assert st.texts[f] + b == st.texts[f];
    } else {
      var st1 := Do(st, OpPut(i, b[0])).store;
      var rest := Puts(i, b[1..]);
      PutsAppend(st1, i, b[1..]);
      One(st, OpPut(i, b[0]), rest);
      assert seq(|b|, _ => OK) == [OK] + seq(|b| - 1, _ => OK);
      assert st.texts[f] + b == st1.texts[f] + b[1..];
    }
  }

  /** Bytes read one after the other are those of the file from the cursor on. */
  lemma {:induction false} GetsRead(st: Store, i: nat, n: nat)
    requires i < |st.handles| && HandleOK(st, i) && st.handles[i].Open?
    requires st.handles[i].pos + n <= |st.texts[st.handles[i].file]|
    ensures CanRun(st, Gets(i, n))
    ensures
      var f, pos := st.handles[i].file, st.handles[i].pos;
      && RepliesOf(st, Gets(i, n)) == st.texts[f][pos..pos + n]
      && RunOps(st, Gets(i, n)) == Store(st.texts, st.handles[i := Open(f, pos + n)])
    decreases n
  {
    var f, pos := st.handles[i].file, st.handles[i].pos;
    if n > 0 {
      var st1 := Do(st, OpGet(i)).store;
      assert st1.texts == st.texts;
      GetsRead(st1, i, n - 1);
      assert Gets(i, n)[1..] == Gets(i, n - 1);
      assert [st.texts[f][pos]] + st.texts[f][pos + 1..pos + n] == st.texts[f][pos..pos + n];
    }
  }

  /** What is put into a truncated file is read back from its start, byte by byte, and then comes the end. */
  lemma TruncatePutsGets(st: Store, i: nat, b: seq<byte>)
    requires StoreOK(st) && i < |st.handles| && st.handles[i].Open?
    ensures
      RepliesOf(st, [OpTruncate(i)] + (Puts(i, b) + ([OpSeek(i, 0)] + (Gets(i, |b|) + [OpGet(i)])))) ==
      [OK] + (seq(|b|, _ => OK) + ([OK] + (b + [EOF])))
  {
    var f := st.handles[i].file;
    TruncateWriteRead(st, i, b);
    DoKeeps(st, OpTruncate(i));
    var st1 := Truncate(st, i).store;
    PutsAppend(st1, i, b);
    assert [] + b == b;
    RunAppend(st1, Puts(i, b), [OpSeek(i, 0)] + (Gets(i, |b|) + [OpGet(i)]));
    var st2 := RunOps(st1, Puts(i, b));
    DoKeeps(st2, OpSeek(i, 0));
    var st3 := Seek(st2, i, 0).store;
    assert st3.texts == st2.texts;
    GetsRead(st3, i, |b|);
    RunAppend(st3, Gets(i, |b|), [OpGet(i)]);
    var st4 := RunOps(st3, Gets(i, |b|));
    One(st4, OpGet(i), []);
    One(st2, OpSeek(i, 0), Gets(i, |b|) + [OpGet(i)]);
    One(st, OpTruncate(i), Puts(i, b) + ([OpSeek(i, 0)] + (Gets(i, |b|) + [OpGet(i)])));
    assert [OpGet(i)] + [] == [OpGet(i)] && b[0..|b|] == b;
  }

}
