/** Which answers of the kernel kill a connection during a flush, told from the answers and the lengths alone. */
module FlushFates {
  import opened WritePath

  /** The bytes the first answers offer to take. */
  function Taken(script: seq<Answer>): nat {
    if script == [] then 0 else (if script[0].Sent? then script[0].n else 0) + Taken(script[1..])
  }

  /** The first k answers neither block nor fail. */
  predicate Passing(script: seq<Answer>, k: nat) {
    k <= |script| && forall j :: 0 <= j < k ==> script[j].Sent? || script[j].Interrupted?
  }

  predicate FatalAt(script: seq<Answer>, k: nat) {
    k < |script| && script[k].Fatal? && Passing(script, k)
  }

  /** The h-th answer is the one that takes the last of the head. */
  predicate HeadEnds(script: seq<Answer>, h: nat, head: nat) {
    Passing(script, h) && head <= Taken(script[..h]) && (h > 0 ==> Taken(script[..h - 1]) < head)
  }

  /** After k answers of sendfile it is still being called: each took something, and bytes are still promised. */
  predicate FileOwes(script: seq<Answer>, k: nat, unsent: nat, promised: nat) {
    && Passing(script, k)
    && (forall j :: 0 <= j < k && script[j].Sent? ==> script[j].n > 0 && Taken(script[..j]) < unsent)
    && (Taken(script[..k]) < promised || unsent < promised)
  }

  ghost predicate KillsHead(script: seq<Answer>, head: nat) {
    exists k: nat :: FatalAt(script, k) && Taken(script[..k]) < head
  }

  ghost predicate KillsFile(script: seq<Answer>, unsent: nat, promised: nat) {
    exists k: nat :: FatalAt(script, k) && FileOwes(script, k, unsent, promised)
  }

  /** A fatal answer is met while bytes of the head, or after the head bytes of the file, are still owed. */
  ghost predicate Kills(s: Sender, script: seq<Answer>, files: Files) {
    || KillsHead(script, |s.out|)
    || (s.op.Some? && exists h: nat :: HeadEnds(script, h, |s.out|)
                                  && KillsFile(script[h..], |FileTail(s, files)|, s.op.value.remaining))
  }

  // ---- One answer at a time -----------------------------------------------

  lemma TakenFirst(script: seq<Answer>, k: nat)
    requires 0 < k <= |script|
    ensures Taken(script[..k]) == (if script[0].Sent? then script[0].n else 0) + Taken(script[1..][..k - 1])
  {
    assert script[..k][1..] == script[1..][..k - 1];
  }

  lemma PassingShift(script: seq<Answer>, k: nat)
    requires script != [] && (script[0].Sent? || script[0].Interrupted?)
    ensures Passing(script, k + 1) <==> Passing(script[1..], k)
    ensures FatalAt(script, k + 1) <==> FatalAt(script[1..], k)
  {
    if Passing(script[1..], k) {
      forall j | 0 <= j < k + 1 ensures script[j].Sent? || script[j].Interrupted? {
        if j > 0 { assert script[j] == script[1..][j - 1]; }
      }
    }
    if Passing(script, k + 1) {
      forall j | 0 <= j < k ensures script[1..][j].Sent? || script[1..][j].Interrupted? {
        assert script[1..][j] == script[j + 1];
      }
    }
  }

  lemma KillsHeadShift(script: seq<Answer>, head: nat)
    requires head > 0 && script != [] && (script[0].Sent? || script[0].Interrupted?)
    ensures var n := if script[0].Sent? then Min(script[0].n, head) else 0;
            KillsHead(script, head) <==> KillsHead(script[1..], head - n)
  {
    hide Taken, Passing;
    if k: nat :| FatalAt(script, k) && Taken(script[..k]) < head {
      PassingShift(script, k - 1);
      TakenFirst(script, k);
    }
    var n := if script[0].Sent? then Min(script[0].n, head) else 0;
    if k: nat :| FatalAt(script[1..], k) && Taken(script[1..][..k]) < head - n {
      PassingShift(script, k);
      TakenFirst(script, k + 1);
    }
  }

  lemma HeadEndsShift(script: seq<Answer>, h: nat, head: nat)
    requires head > 0 && script != [] && (script[0].Sent? || script[0].Interrupted?)
    ensures var n := if script[0].Sent? then Min(script[0].n, head) else 0;
            HeadEnds(script, h + 1, head) <==> HeadEnds(script[1..], h, head - n)
  {
    PassingShift(script, h);
    if h < |script| {
      TakenFirst(script, h + 1);
      if h > 0 { TakenFirst(script, h); }
    }
  }

  /** The sending of the head fails exactly at a fatal answer met while head bytes are left, and ends with the head. */
  lemma {:induction false} SendLoopFate(s: Sender, script: seq<Answer>)
    requires Ok(s)
    ensures SendLoop(s, script).2 == Dead <==> KillsHead(script, |s.out|)
    ensures SendLoop(s, script).2 == Going ==> exists h: nat :: HeadEnds(script, h, |s.out|)
    ensures forall h: nat :: HeadEnds(script, h, |s.out|) ==>
              SendLoop(s, script).2 == Going && SendLoop(s, script).1 == script[h..]
    decreases |script|
  {
    hide KillsHead, HeadEnds;
    if s.out == "" || script == [] || !(script[0].Sent? || script[0].Interrupted?) {
      SendLoopSettled(s, script);
    } else {
      var n := if script[0].Sent? then Min(script[0].n, |s.out|) else 0;
      var t := if script[0].Sent? then s.(out := s.out[n..], wire := s.wire + s.out[..n]) else s;
      assert SendLoop(s, script) == SendLoop(t, script[1..]);
      SendLoopFate(t, script[1..]);
      hide SendLoop;
      KillsHeadShift(script, |s.out|);
      forall h: nat ensures HeadEnds(script, h + 1, |s.out|) <==> HeadEnds(script[1..], h, |t.out|) {
        HeadEndsShift(script, h, |s.out|);
      }
      forall h: nat | HeadEnds(script, h, |s.out|) ensures 0 < h <= |script| && script[h..] == script[1..][h - 1..] {
        HeadEndsInside(script, h, |s.out|);
      }
      if h: nat :| HeadEnds(script[1..], h, |t.out|) { assert HeadEnds(script, h + 1, |s.out|); }
    }
  }

  lemma HeadEndsInside(script: seq<Answer>, h: nat, head: nat)
    requires HeadEnds(script, h, head)
    ensures h <= |script| && (head > 0 ==> h > 0)
  {
  }

  lemma SendLoopSettled(s: Sender, script: seq<Answer>)
    requires Ok(s) && (s.out == "" || script == [] || !(script[0].Sent? || script[0].Interrupted?))
    ensures SendLoop(s, script).2 == Dead <==> KillsHead(script, |s.out|)
    ensures SendLoop(s, script).2 == Going ==> exists h: nat :: HeadEnds(script, h, |s.out|)
    ensures forall h: nat :: HeadEnds(script, h, |s.out|) ==>
              SendLoop(s, script).2 == Going && SendLoop(s, script).1 == script[h..]
  {
    if s.out == "" {
      assert HeadEnds(script, 0, 0);
    } else {
      if script != [] && script[0].Fatal? { assert FatalAt(script, 0) && Taken(script[..0]) < |s.out|; }
      forall h: nat | HeadEnds(script, h, |s.out|) ensures false {
        HeadEndsInside(script, h, |s.out|);
      }
    }
  }

  // ---- The file -----------------------------------------------------------

  lemma KillsFileShift(script: seq<Answer>, unsent: nat, promised: nat)
    requires promised > 0 && script != [] && unsent <= promised
    requires script[0].Interrupted? || (script[0].Sent? && Min(script[0].n, unsent) > 0)
    ensures var n := if script[0].Sent? then Min(script[0].n, unsent) else 0;
            KillsFile(script, unsent, promised) <==> KillsFile(script[1..], unsent - n, promised - n)
  {
    hide FileOwes, Passing;
    var n := if script[0].Sent? then Min(script[0].n, unsent) else 0;
    if k: nat :| FatalAt(script, k) && FileOwes(script, k, unsent, promised) {
      FileOwesShift(script, k - 1, unsent, promised);
      PassingShift(script, k - 1);
    }
    if k: nat :| FatalAt(script[1..], k) && FileOwes(script[1..], k, unsent - n, promised - n) {
      FileOwesShift(script, k, unsent, promised);
      PassingShift(script, k);
    }
  }

  lemma FileOwesShift(script: seq<Answer>, k: nat, unsent: nat, promised: nat)
    requires script != [] && unsent <= promised
    requires script[0].Interrupted? || (script[0].Sent? && Min(script[0].n, unsent) > 0)
    ensures var n := if script[0].Sent? then Min(script[0].n, unsent) else 0;
            FileOwes(script, k + 1, unsent, promised) <==> FileOwes(script[1..], k, unsent - n, promised - n)
  {
    PassingShift(script, k);
    if Passing(script, k + 1) {
      forall j | 0 <= j <= k
        ensures Taken(script[..j + 1]) == (if script[0].Sent? then script[0].n else 0) + Taken(script[1..][..j])
        ensures j < k ==> script[1..][j] == script[j + 1]
      {
        TakenFirst(script, j + 1);
      }
      hide Passing, Taken;
      var n := if script[0].Sent? then Min(script[0].n, unsent) else 0;
      if FileOwes(script, k + 1, unsent, promised) {
        forall j | 0 <= j < k && script[1..][j].Sent?
            ensures script[1..][j].n > 0 && Taken(script[1..][..j]) < unsent - n {
          assert script[j + 1].Sent?;
        }
      }
      if FileOwes(script[1..], k, unsent - n, promised - n) {
        TakenNone(script);
        forall j | 0 <= j < k + 1 && script[j].Sent? ensures script[j].n > 0 && Taken(script[..j]) < unsent {
          if j > 0 { assert script[1..][j - 1].Sent?; }
        }
      }
    }
  }

  lemma TakenNone(script: seq<Answer>)
    ensures Taken(script[..0]) == 0
  {
  }

  lemma FileLoopSettled(s: Sender, script: seq<Answer>, files: Files)
    requires Ok(s) && s.op.Some?
    requires !s.op.value.Active() || script == [] || script[0].WouldBlock? || script[0].Fatal?
          || (script[0].Sent? && Min(script[0].n, |FileTail(s, files)|) == 0)
    ensures FileLoop(s, script, files).2 == Dead <==> KillsFile(script, |FileTail(s, files)|, s.op.value.remaining)
  {
    var unsent, promised := |FileTail(s, files)|, s.op.value.remaining;
    if promised > 0 && script != [] && script[0].Fatal? {
      TakenNone(script);
      assert FatalAt(script, 0) && FileOwes(script, 0, unsent, promised);
    } else {
      forall k: nat | FatalAt(script, k) ensures !FileOwes(script, k, unsent, promised) {
        if promised > 0 {
          assert k > 0;
          TakenNone(script);
        }
      }
    }
  }

  /** sendfile fails exactly at a fatal answer met while it is still being called. */
  lemma {:induction false} FileLoopFate(s: Sender, script: seq<Answer>, files: Files)
    requires Ok(s) && s.out == "" && s.op.Some?
    ensures FileLoop(s, script, files).2 == Dead <==> KillsFile(script, |FileTail(s, files)|, s.op.value.remaining)
    decreases |script|
  {
    hide KillsFile;
    var tail := FileTail(s, files);
    if s.op.value.Active() && script != [] && script[0].Interrupted? {
      FileLoopFate(s, script[1..], files);
      hide FileLoop;
      KillsFileShift(script, |tail|, s.op.value.remaining);
    } else if s.op.value.Active() && script != [] && script[0].Sent? && Min(script[0].n, |tail|) > 0 {
      var n := script[0].n;
      var t := FileChunk(s, n, files);
      FileChunkSends(s, n, files);
      ChunkTakes(s, n, files);
      assert FileLoop(s, script, files) == FileLoop(t, script[1..], files);
      FileLoopFate(t, script[1..], files);
      hide FileLoop;
      KillsFileShift(script, |tail|, s.op.value.remaining);
    } else {
      FileLoopSettled(s, script, files);
    }
  }

  lemma ChunkTakes(s: Sender, n: nat, files: Files)
    requires Ok(s) && s.op.Some? && Min(n, |FileTail(s, files)|) > 0
    ensures var t, k := FileChunk(s, n, files), Min(n, |FileTail(s, files)|);
            && t != s && t.op.Some? && t.op.value.fd == s.op.value.fd &&
                t.op.value.remaining == s.op.value.remaining - k
            && |FileTail(t, files)| == |FileTail(s, files)| - k
  {
    var t, k := FileChunk(s, n, files), Min(n, |FileTail(s, files)|);
    assert t.op.value.offset == s.op.value.offset + k;
  }

  // ---- The flush ----------------------------------------------------------

  /** A flush of an open connection kills it exactly when a fatal answer is met while something is still owed. */
  lemma FlushKillsIff(s: Sender, script: seq<Answer>, files: Files)
    requires Ok(s)
    ensures !Flush(s, script, files).0.Alive() <==> Kills(s, script, files)
  {
    hide KillsHead, KillsFile, HeadEnds;
    SendLoopFate(s, script);
    SendLoopSends(s, script, files);
    var (t, rest, progress) := SendLoop(s, script);
    if progress == Going {
      FileLoopSends(t, rest, files);
      var h: nat :| HeadEnds(script, h, |s.out|);
      HeadEndsInside(script, h, |s.out|);
      if s.op.Some? {
        FileLoopFate(t, rest, files);
        assert FileTail(t, files) == FileTail(s, files);
      }
      hide SendLoop, FileLoop, FileTail;
    }
  }

  // ---- What a flush that leaves bytes waits for ---------------------------

  /** How the last phase of a flush ended. After Blocked the kernel reports when the socket takes bytes again. */
  function FlushEnd(s: Sender, script: seq<Answer>, files: Files): Progress {
    var (t, rest, progress) := SendLoop(s, script);
    if progress == Going then FileLoop(t, rest, files).2 else progress
  }

  /** The kernel takes at least one byte when it takes any; only a file that has run out answers 0. */
  predicate Takes(script: seq<Answer>) {
    forall j :: 0 <= j < |script| && script[j].Sent? ==> script[j].n > 0
  }

  /** Nothing more to send, although more was promised: the file has become shorter. */
  predicate RunOut(s: Sender, files: Files) {
    s.out == "" && FileTail(s, files) == "" && Owed(s) > 0
  }

  lemma {:induction false} SendLoopRest(s: Sender, script: seq<Answer>)
    requires Takes(script)
    ensures Takes(SendLoop(s, script).1)
    decreases |script|
  {
    if s.out != "" && script != [] && (script[0].Sent? || script[0].Interrupted?) {
      var t := if script[0].Sent?
               then s.(out := s.out[Min(script[0].n, |s.out|)..], wire := s.wire + s.out[..Min(script[0].n, |s.out|)])
                   else s;
      if s.open { SendLoopRest(t, script[1..]); }
    }
  }

  lemma {:induction false} FileLoopEnds(s: Sender, script: seq<Answer>, files: Files)
    requires Ok(s) && s.out == "" && Takes(script) && FileLoop(s, script, files).2 == Going
    ensures var t := FileLoop(s, script, files).0;
            (t.op.None? || t.op.value.remaining == 0) || FileTail(t, files) == ""
    decreases |script|
  {
    hide FileTail, Unsent;
    if s.op.Some? && s.op.value.Active() && script != [] {
      if script[0].Interrupted? {
        FileLoopEnds(s, script[1..], files);
      } else if script[0].Sent? {
        var n := script[0].n;
        var t := FileChunk(s, n, files);
        if t == s {
          EmptyChunk(s, n, files);
        } else {
          FileChunkSends(s, n, files);
          FileLoopEnds(t, script[1..], files);
        }
      }
    }
  }

  lemma EmptyChunk(s: Sender, n: nat, files: Files)
    requires s.op.Some? && n > 0 && FileChunk(s, n, files) == s
    ensures FileTail(s, files) == ""
  {
    var all := Unsent(s.op.value, files);
    var k := Min(n, |all|);
    assert |s.wire + all[..k]| == |s.wire| + k;
  }

  /** A flush that leaves bytes owed has blocked, or the file has run out: then no write event will come. */
  lemma FlushBlocksOrRunsOut(s: Sender, script: seq<Answer>, files: Files)
    requires Ok(s) && Takes(script)
    ensures var (t, owed) := Flush(s, script, files);
            t.Alive() && owed > 0 ==> FlushEnd(s, script, files) == Blocked || RunOut(t, files)
  {
    SendLoopSends(s, script, files);
    SendLoopRest(s, script);
    var (t, rest, progress) := SendLoop(s, script);
    if progress == Going {
      FileLoopSends(t, rest, files);
      if FileLoop(t, rest, files).2 == Going { FileLoopEnds(t, rest, files); }
      hide SendLoop, FileLoop, FileTail;
    }
  }

  // ---- Files that became shorter ------------------------------------------

  /** The transfer promises more than its file still holds. */
  predicate Short(s: Sender, files: Files) { s.op.Some? && |FileTail(s, files)| < s.op.value.remaining }

  lemma {:induction false} FileLoopKeepsShort(s: Sender, script: seq<Answer>, files: Files)
    requires Ok(s) && s.out == ""
    ensures var t := FileLoop(s, script, files).0; t.Alive() ==> (Short(t, files) <==> Short(s, files))
    decreases |script|
  {
    hide FileTail;
    if s.op.Some? && s.op.value.Active() && script != [] {
      if script[0].Interrupted? {
        FileLoopKeepsShort(s, script[1..], files);
      } else if script[0].Sent? {
        var n := script[0].n;
        var t := FileChunk(s, n, files);
        if t != s {
          FileChunkSends(s, n, files);
          NonEmptyChunk(s, n, files);
          ChunkTakes(s, n, files);
          FileLoopKeepsShort(t, script[1..], files);
        }
      }
    }
  }

  lemma NonEmptyChunk(s: Sender, n: nat, files: Files)
    requires Ok(s) && s.op.Some? && FileChunk(s, n, files) != s
    ensures Min(n, |FileTail(s, files)|) > 0
  {
  }

  /** No flush changes whether more is promised than the file holds, as long as anything is owed. */
  lemma FlushKeepsShort(s: Sender, script: seq<Answer>, files: Files)
    requires Ok(s)
    ensures var (t, owed) := Flush(s, script, files);
            && (t.Alive() && Short(s, files) ==> Short(t, files) && owed > 0)
            && (t.Alive() && Short(t, files) ==> Short(s, files))
  {
    SendLoopSends(s, script, files);
    var (t, rest, progress) := SendLoop(s, script);
    if progress == Going {
      FileLoopSends(t, rest, files);
      FileLoopKeepsShort(t, rest, files);
      hide SendLoop, FileLoop, FileTail;
    }
  }

  /** While the file holds what was promised, a flush that leaves bytes owed has blocked. */
  lemma FlushBlocks(s: Sender, script: seq<Answer>, files: Files)
    requires Ok(s) && Takes(script) && !Short(s, files)
    ensures var (t, owed) := Flush(s, script, files);
            t.Alive() && owed > 0 ==> FlushEnd(s, script, files) == Blocked
  {
    FlushBlocksOrRunsOut(s, script, files);
    FlushKeepsShort(s, script, files);
    FlushKeepsOrder(s, script, files);
    hide Flush, FlushEnd;
  }

  lemma {:induction false} ShortNeverDone(s: Sender, scripts: seq<seq<Answer>>, files: Files)
    requires Ok(s) && Short(s, files)
    ensures var (t, owed) := FlushAll(s, scripts, files); t.Alive() ==> owed > 0
    decreases |scripts|
  {
    if scripts != [] {
      FlushKeepsShort(s, scripts[0], files);
      FlushKeepsOrder(s, scripts[0], files);
      hide Flush, FileTail;
      var t := Flush(s, scripts[0], files).0;
      if t.Alive() { ShortNeverDone(t, scripts[1..], files); }
    }
  }

  predicate Done(s: Sender, scripts: seq<seq<Answer>>, files: Files) {
    FlushAll(s, scripts, files).0.Alive() && FlushAll(s, scripts, files).1 == 0
  }

  lemma SendTakesAll(s: Sender, rest: seq<Answer>)
    requires Ok(s) && s.out != ""
    ensures SendLoop(s, [Sent(|s.out|)] + rest) == (s.(out := "", wire := s.wire + s.out), rest, Going)
  {
    var script := [Sent(|s.out|)] + rest;
    assert script[1..] == rest && s.out[|s.out|..] == "" && s.out[..|s.out|] == s.out;
    assert SendLoop(s.(out := "", wire := s.wire + s.out), rest) ==
        (s.(out := "", wire := s.wire + s.out), rest, Going);
  }

  lemma FileTakesAll(s: Sender, rest: seq<Answer>, files: Files)
    requires Ok(s) && s.op.Some? && s.op.value.remaining > 0 && !Short(s, files)
    ensures var (t, _, progress) := FileLoop(s, [Sent(s.op.value.remaining)] + rest, files);
            progress == Going && t.Alive() && t.out == s.out && t.op.Some? && t.op.value.remaining == 0
  {
    var n := s.op.value.remaining;
    var script := [Sent(n)] + rest;
    ChunkTakes(s, n, files);
    var t := FileChunk(s, n, files);
    assert script[1..] == rest;
    assert FileLoop(t, rest, files) == (t, rest, Going);
  }

  lemma TakeAllDone(s: Sender, files: Files)
    requires Ok(s) && !Short(s, files)
    ensures exists script :: Done(s, [script], files)
  {
    var last := if s.op.Some? && s.op.value.remaining > 0 then [Sent(s.op.value.remaining)] else [];
    var script := (if s.out == "" then [] else [Sent(|s.out|)]) + last;
    var t := s.(out := "", wire := s.wire + s.out);
    if s.out != "" { SendTakesAll(s, last); } else { assert script == last && s.wire + "" == s.wire; }
    assert SendLoop(s, script) == (t, last, Going);
    assert FileTail(t, files) == FileTail(s, files);
    if last != [] { FileTakesAll(t, [], files); assert last == last + []; }
    hide SendLoop, FileTail;
    assert Flush(s, script, files).1 == 0;
    hide FileLoop;
    var u := Flush(s, script, files).0;
    assert u.Alive();
    FlushKeepsOrder(s, script, files);
    hide Flush;
    assert FlushAll(u, [], files) == (u, 0);
    assert [script][1..] == [];
    assert Done(s, [script], files);
  }

  /** What is owed can be sent, for some answers of the kernel, exactly when the file still holds what was promised. */
  lemma CanBeDoneIff(s: Sender, files: Files)
    requires Ok(s)
    ensures (exists scripts :: Done(s, scripts, files)) <==> !Short(s, files)
  {
    hide Done, Short;
    if !Short(s, files) {
      TakeAllDone(s, files);
      var script :| Done(s, [script], files);
    } else {
      forall scripts ensures !Done(s, scripts, files) { NotDone(s, scripts, files); }
    }
  }

  lemma NotDone(s: Sender, scripts: seq<seq<Answer>>, files: Files)
    requires Ok(s) && Short(s, files)
    ensures !Done(s, scripts, files)
  {
    ShortNeverDone(s, scripts, files);
  }
}
