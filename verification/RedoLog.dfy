/**
 The physical redo log of kernel/log.c: its on-disk format, the single-block disk writes that
 commit() and recover_from_log() issue, and the proof that a crash between any two of them, followed
 by any number of interrupted recoveries, leaves either the whole old or the whole new contents.
 */
module RedoLog {
  import opened Collections

  const MAXOPBLOCKS: nat := 10
  const LOGSIZE: nat := 30

  /** The 32-bit words of a block: BSIZE is 1024 bytes. */
  const WORDS: nat := 256

  /** A block, as the 32-bit words that struct logheader overlays. */
  datatype Block = Block(words: seq<int>)

  /** What the disk holds: one block per block number. */
  type Image = seq<Block>

  /** log.start and log.size: the header block is number start, data slot i is start + 1 + i. */
  datatype Area = Area(start: nat, size: nat)

  predicate InLog(a: Area, b: int) {
    a.start <= b < a.start + a.size
  }

  predicate Home(a: Area, d: Image, b: int) {
    0 <= b < |d| && !InLog(a, b)
  }

  /** No number occurs twice: each one is found only where it stands. */
  ghost predicate NoRepeats(s: seq<int>) {
    forall i :: 0 <= i < |s| ==> Slot(s, s[i]) == i
  }

  /** NoRepeats, said without Slot. */
  lemma NoRepeatsMeans(s: seq<int>)
    ensures NoRepeats(s) <==> Distinct(s)
  {
    if Distinct(s) {
      forall i | 0 <= i < |s|
        ensures Slot(s, s[i]) == i
      {
      }
    }
  }

  /** The block numbers named by a header block: n in word 0, block[i] in word 1 + i. */
  function HeadOf(blk: Block): seq<int> {
    if WfBlock(blk) && 0 <= blk.words[0] <= LOGSIZE then blk.words[1..1 + blk.words[0]] else []
  }

  predicate WfBlock(blk: Block) {
    |blk.words| == WORDS
  }

  /** write_head's in-place update: only the first 1 + n words of the block change. */
  function PutHead(blk: Block, lh: seq<int>): (r: Block)
    requires WfBlock(blk) && |lh| <= LOGSIZE
    ensures WfBlock(r) && r.words[0] == |lh| && HeadOf(r) == lh
  {
    Block([|lh|] + lh + blk.words[1 + |lh|..])
  }

  /** The block numbers of a header can be replayed: distinct home blocks, one data slot each. */
  ghost predicate WfHead(a: Area, d: Image, lh: seq<int>) {
    && |lh| <= LOGSIZE
    && |lh| < a.size
    && NoRepeats(lh)
    && forall i :: 0 <= i < |lh| ==> Home(a, d, lh[i])
  }

  ghost predicate WfImage(a: Area, d: Image) {
    && 0 < a.size
    && a.start + a.size <= |d|
    && WfBlock(d[a.start]) && 0 <= d[a.start].words[0] <= LOGSIZE
    && WfHead(a, d, HeadOf(d[a.start]))
  }

  /** The log holds no transaction. */
  ghost predicate Idle(a: Area, d: Image) {
    WfImage(a, d) && HeadOf(d[a.start]) == []
  }

  /** The position of b in a header. */
  ghost function Slot(lh: seq<int>, b: int): (i: nat)
    requires b in lh
    ensures i < |lh| && lh[i] == b
  {
    var i :| 0 <= i < |lh| && lh[i] == b;
    i
  }

  /** The home blocks after replaying a log whose header names lh. */
  ghost function Replayed(a: Area, d: Image, lh: seq<int>): map<int, Block>
    requires a.start + |lh| < |d|
  {
    map b | 0 <= b < |d| && !InLog(a, b) :: if b in lh then d[a.start + 1 + Slot(lh, b)] else d[b]
  }

  /** The contents of every home block as a completed recovery would leave them. */
  ghost function Recovered(a: Area, d: Image): map<int, Block>
    requires WfImage(a, d)
  {
    Replayed(a, d, HeadOf(d[a.start]))
  }

  /** The home blocks as they stand, ignoring the log. */
  function HomeBlocks(a: Area, d: Image): map<int, Block> {
    map b | 0 <= b < |d| && !InLog(a, b) :: d[b]
  }

  /** The home blocks after writing vals[i] to lh[i]. */
  ghost function Updated(a: Area, d: Image, lh: seq<int>, vals: seq<Block>): map<int, Block>
    requires |lh| == |vals|
  {
    map b | 0 <= b < |d| && !InLog(a, b) :: if b in lh then vals[Slot(lh, b)] else d[b]
  }

  /** Every valid buffer equals its disk block, except those holding updates logged in slots k and above. */
  ghost predicate CoherentWith(cache: map<int, Block>, disk: Image, lh: seq<int>, k: nat) {
    forall b :: b in cache ==> 0 <= b < |disk| && ((b in lh && Slot(lh, b) >= k) || cache[b] == disk[b])
  }

  /** The cached contents of the logged blocks. */
  function Values(cache: map<int, Block>, lh: seq<int>): seq<Block>
    requires forall i :: 0 <= i < |lh| ==> lh[i] in cache
  {
    seq(|lh|, i requires 0 <= i < |lh| => cache[lh[i]])
  }

  /** After write_log has written its first k data slots. */
  function LogCopied(a: Area, d: Image, vals: seq<Block>, k: nat): (r: Image)
    requires k <= |vals|
  {
    seq(|d|, b requires 0 <= b < |d| => if a.start < b <= a.start + k then vals[b - a.start - 1] else d[b])
  }

  /** After write_head. */
  function Headed(a: Area, d: Image, lh: seq<int>): Image
    requires a.start < |d| && WfBlock(d[a.start]) && |lh| <= LOGSIZE
  {
    d[a.start := PutHead(d[a.start], lh)]
  }

  /** After install_trans has copied its first k data slots to their home blocks. */
  ghost function Installed(a: Area, d: Image, lh: seq<int>, k: nat): (r: Image)
    requires k <= |lh| && a.start + |lh| < |d|
  {
    seq(|d|, b requires 0 <= b < |d| => if b in lh && Slot(lh, b) < k then d[a.start + 1 + Slot(lh, b)] else d[b])
  }

  /** The images of write_log's first k writes. */
  function LogWrites(a: Area, d: Image, vals: seq<Block>, k: nat): seq<Image>
    requires k <= |vals|
  {
    seq(k, i requires 0 <= i < k => LogCopied(a, d, vals, i + 1))
  }

  /** The images of install_trans's first k writes. */
  ghost function InstallWrites(a: Area, d: Image, lh: seq<int>, k: nat): seq<Image>
    requires k <= |lh| && a.start + |lh| < |d|
  {
    seq(k, i requires 0 <= i < k => Installed(a, d, lh, i + 1))
  }

  /** The images recover_from_log() makes the disk go through: every slot installed, then the header cleared. */
  ghost function RecoverImages(a: Area, d: Image): (r: seq<Image>)
    requires WfImage(a, d)
    ensures |r| == |HeadOf(d[a.start])| + 1
    ensures forall i :: 0 <= i < |r| ==> |r[i]| == |d|
  {
    var lh := HeadOf(d[a.start]);
    InstallKeepsLog(a, d, |lh|);
    InstallWrites(a, d, lh, |lh|) + [Headed(a, Installed(a, d, lh, |lh|), [])]
  }

  /** The images commit() makes the disk go through, one per bwrite, for logged blocks lh with cached contents vals. */
  ghost function CommitImages(a: Area, d: Image, lh: seq<int>, vals: seq<Block>): seq<Image>
    requires Idle(a, d) && WfHead(a, d, lh) && |vals| == |lh|
  {
    HeaderCommits(a, d, lh, vals);
    var headed := Headed(a, LogCopied(a, d, vals, |lh|), lh);
    if lh == [] then [] else LogWrites(a, d, vals, |lh|) + [headed] + RecoverImages(a, headed)
  }

  /** What the disk holds when power fails after j of the writes in images. */
  function AfterWrites(d: Image, images: seq<Image>, j: nat): Image {
    if j == 0 || images == [] then d else if j <= |images| then images[j - 1] else images[|images| - 1]
  }

  /** What the disk holds after a series of recoveries, the i-th cut off after js[i] writes. */
  ghost function AfterCrashes(a: Area, d: Image, js: seq<nat>): Image
    requires WfImage(a, d)
    decreases |js|
  {
    if js == [] then d else
      var d' := AfterWrites(d, RecoverImages(a, d), js[0]);
      RecoveryKeepsMeaning(a, d, js[0]);
      AfterCrashes(a, d', js[1..])
  }

  /** Installation writes home blocks only, so the header and the data slots stay as they are. */
  lemma InstallKeepsLog(a: Area, d: Image, k: nat)
    requires WfImage(a, d) && k <= |HeadOf(d[a.start])|
    ensures var d' := Installed(a, d, HeadOf(d[a.start]), k);
            WfImage(a, d') && forall b :: 0 <= b < |d| && InLog(a, b) ==> d'[b] == d[b]
  {
    var lh := HeadOf(d[a.start]);
    var d' := Installed(a, d, lh, k);
    forall b | 0 <= b < |d| && InLog(a, b)
      ensures d'[b] == d[b]
    {
      assert b !in lh;
    }
    assert d'[a.start] == d[a.start];
    assert forall b :: Home(a, d, b) ==> Home(a, d', b);
  }

  /** One iteration of write_log. */
  lemma LogCopyStep(a: Area, d: Image, vals: seq<Block>, k: nat)
    requires k < |vals| && a.start + 1 + k < |d|
    ensures LogCopied(a, d, vals, k)[a.start + 1 + k := vals[k]] == LogCopied(a, d, vals, k + 1)
    ensures LogWrites(a, d, vals, k) + [LogCopied(a, d, vals, k + 1)] == LogWrites(a, d, vals, k + 1)
  {
  }

  /** The data slots are outside the logged blocks. */
  lemma LogCopySlot(a: Area, d: Image, lh: seq<int>, k: nat)
    requires WfImage(a, d) && WfHead(a, d, lh) && k < |lh|
    ensures a.start + 1 + k !in lh && a.start + 1 + k < |d| && 0 <= lh[k] < |d|
  {
    hide HeadOf, NoRepeats;
    assert InLog(a, a.start + 1 + k) && Home(a, d, lh[k]);
  }

  /** Writing a data slot through its buffer disturbs no logged block. */
  lemma LogCopyCoherence(cache: map<int, Block>, disk: Image, lh: seq<int>, slot: int, data: Block)
    requires CoherentWith(cache, disk, lh, 0) && slot !in lh && 0 <= slot < |disk|
    requires forall i :: 0 <= i < |lh| ==> lh[i] in cache
    ensures CoherentWith(cache[slot := data], disk[slot := data], lh, 0)
    ensures Values(cache[slot := data], lh) == Values(cache, lh)
  {
  }

  lemma LogCopyShape(a: Area, d: Image, lh: seq<int>, vals: seq<Block>, k: nat)
    requires WfImage(a, d) && WfHead(a, d, lh) && k <= |vals|
    ensures WfImage(a, LogCopied(a, d, vals, k)) && WfHead(a, LogCopied(a, d, vals, k), lh)
  {
    var d' := LogCopied(a, d, vals, k);
    assert d'[a.start] == d[a.start];
    assert forall b :: Home(a, d', b) == Home(a, d, b);
    hide HeadOf, NoRepeats, LogCopied;
  }

  /** One iteration of install_trans. */
  lemma InstallStep(a: Area, d: Image, lh: seq<int>, k: nat)
    requires NoRepeats(lh) && k < |lh| && a.start + |lh| < |d|
    requires 0 <= lh[k] < |d| && a.start + 1 + k !in lh
    ensures Installed(a, d, lh, k)[a.start + 1 + k] == d[a.start + 1 + k]
    ensures Installed(a, d, lh, k)[lh[k] := d[a.start + 1 + k]] == Installed(a, d, lh, k + 1)
    ensures InstallWrites(a, d, lh, k) + [Installed(a, d, lh, k + 1)] == InstallWrites(a, d, lh, k + 1)
  {
    var m, m' := Installed(a, d, lh, k), Installed(a, d, lh, k + 1);
    assert Slot(lh, lh[k]) == k;
    assert m'[lh[k]] == d[a.start + 1 + k];
    forall b | 0 <= b < |d| && b != lh[k]
      ensures m'[b] == m[b]
    {
      if b in lh {
        assert Slot(lh, b) != k;
      }
    }
  }

  lemma InstallReads(a: Area, d: Image, lh: seq<int>, k: nat, cache: map<int, Block>, disk: Image)
    requires WfImage(a, d) && lh == HeadOf(d[a.start]) && k < |lh|
    requires disk == Installed(a, d, lh, k) && CoherentWith(cache, disk, lh, k)
    ensures Home(a, disk, lh[k]) && a.start + 1 + k < |disk|
    ensures a.start + 1 + k in cache ==> cache[a.start + 1 + k] == disk[a.start + 1 + k]
    ensures disk[lh[k] := disk[a.start + 1 + k]] == Installed(a, d, lh, k + 1)
    ensures InstallWrites(a, d, lh, k) + [Installed(a, d, lh, k + 1)] == InstallWrites(a, d, lh, k + 1)
  {
    assert Home(a, d, lh[k]);
    assert a.start + 1 + k !in lh by {
      assert InLog(a, a.start + 1 + k);
    }
    InstallStep(a, d, lh, k);
  }

  lemma InstallCoherence(disk: Image, lh: seq<int>, k: nat, cache: map<int, Block>, data: Block)
    requires NoRepeats(lh) && k < |lh| && 0 <= lh[k] < |disk| && CoherentWith(cache, disk, lh, k)
    ensures CoherentWith(cache[lh[k] := data], disk[lh[k] := data], lh, k + 1)
  {
    forall b | b in cache && b != lh[k] && b in lh
      ensures Slot(lh, b) != k
    {
    }
  }

  /** Installing any prefix of the slots, under an unchanged header, does not change what recovery yields. */
  lemma InstallKeepsMeaning(a: Area, d: Image, k: nat)
    requires WfImage(a, d) && k <= |HeadOf(d[a.start])|
    ensures var d' := Installed(a, d, HeadOf(d[a.start]), k);
            WfImage(a, d') && Recovered(a, d') == Recovered(a, d)
  {
    InstallKeepsLog(a, d, k);
    var lh := HeadOf(d[a.start]);
    var d' := Installed(a, d, lh, k);
    assert d'[a.start] == d[a.start];
    forall b | 0 <= b < |d| && !InLog(a, b)
      ensures Recovered(a, d')[b] == Recovered(a, d)[b]
    {
      if b in lh {
        assert InLog(a, a.start + 1 + Slot(lh, b));
      }
    }
  }

  /** Once every slot is installed the home blocks stand as recovery would leave them. */
  lemma InstalledHome(a: Area, d: Image)
    requires WfImage(a, d)
    ensures var lh := HeadOf(d[a.start]); HomeBlocks(a, Installed(a, d, lh, |lh|)) == Recovered(a, d)
  {
    var lh := HeadOf(d[a.start]);
    var m := Installed(a, d, lh, |lh|);
    hide WfImage, HeadOf;
    forall b | 0 <= b < |d| && !InLog(a, b)
      ensures HomeBlocks(a, m)[b] == Replayed(a, d, lh)[b]
    {
    }
  }

  /** Clearing the header leaves an idle log and the home blocks as they are. */
  lemma ClearedIdle(a: Area, d: Image)
    requires WfImage(a, d)
    ensures var d' := Headed(a, d, []);
            Idle(a, d') && HomeBlocks(a, d') == Recovered(a, d') == HomeBlocks(a, d)
  {
    var d' := Headed(a, d, []);
    assert HeadOf(d'[a.start]) == [] && d'[a.start].words[0] == 0;
    hide HeadOf, PutHead;
    forall b | 0 <= b < |d| && !InLog(a, b)
      ensures HomeBlocks(a, d')[b] == HomeBlocks(a, d)[b]
    {
      assert b != a.start;
    }
    assert Replayed(a, d', []) == HomeBlocks(a, d');
  }

  /** After the last install the home blocks hold what recovery yields, and clearing the header then changes nothing. */
  lemma InstallCompletes(a: Area, d: Image)
    requires WfImage(a, d)
    ensures var lh := HeadOf(d[a.start]);
            var m := Installed(a, d, lh, |lh|);
            && WfImage(a, m)
            && HomeBlocks(a, m) == Recovered(a, d)
            && var d' := Headed(a, m, []);
            Idle(a, d') && HomeBlocks(a, d') == Recovered(a, d) == Recovered(a, d')
  {
    hide Recovered, HomeBlocks, Idle;
    var lh := HeadOf(d[a.start]);
    InstallKeepsLog(a, d, |lh|);
    InstalledHome(a, d);
    ClearedIdle(a, Installed(a, d, lh, |lh|));
  }

  /** Every write of a recovery leaves a disk that recovers to the same contents; the last one has them in place. */
  lemma RecoveryKeepsMeaning(a: Area, d: Image, j: nat)
    requires WfImage(a, d)
    ensures var images := RecoverImages(a, d);
            var d' := AfterWrites(d, images, j);
            && WfImage(a, d') && Recovered(a, d') == Recovered(a, d)
            && (j >= |images| ==> Idle(a, d') && HomeBlocks(a, d') == Recovered(a, d))
  {
    var lh := HeadOf(d[a.start]);
    if 0 < j <= |lh| {
      InstallKeepsMeaning(a, d, j);
    } else if j > |lh| {
      InstallCompletes(a, d);
    }
  }

  lemma {:induction false} NestedCrashes(a: Area, d: Image, js: seq<nat>)
    requires WfImage(a, d)
    ensures var d' := AfterCrashes(a, d, js);
            WfImage(a, d') && Recovered(a, d') == Recovered(a, d)
    decreases |js|
  {
    if js != [] {
      RecoveryKeepsMeaning(a, d, js[0]);
      NestedCrashes(a, AfterWrites(d, RecoverImages(a, d), js[0]), js[1..]);
    }
  }

  /** Writes to the data slots of an idle log are invisible to recovery. */
  lemma LogCopyInvisible(a: Area, d: Image, lh: seq<int>, vals: seq<Block>, k: nat)
    requires Idle(a, d) && WfHead(a, d, lh) && |vals| == |lh| && k <= |lh|
    ensures var d' := LogCopied(a, d, vals, k);
            Idle(a, d') && Recovered(a, d') == Recovered(a, d)
  {
  }

  /** Writing the header is the commit point: it turns the old contents into the new ones in one step. */
  lemma HeaderCommits(a: Area, d: Image, lh: seq<int>, vals: seq<Block>)
    requires Idle(a, d) && WfHead(a, d, lh) && |vals| == |lh|
    ensures var d' := Headed(a, LogCopied(a, d, vals, |lh|), lh);
            WfImage(a, d') && HeadOf(d'[a.start]) == lh && Recovered(a, d') == Updated(a, d, lh, vals)
  {
    var d' := Headed(a, LogCopied(a, d, vals, |lh|), lh);
    assert HeadOf(d'[a.start]) == lh && d'[a.start].words[0] == |lh|;
    hide HeadOf, PutHead;
    assert forall b :: Home(a, d, b) ==> Home(a, d', b);
    forall b | 0 <= b < |d| && !InLog(a, b)
      ensures Recovered(a, d')[b] == Updated(a, d, lh, vals)[b]
    {
      if b in lh {
        assert d'[a.start + 1 + Slot(lh, b)] == vals[Slot(lh, b)];
      }
    }
  }

  lemma AfterWritesSplit(d: Image, before: seq<Image>, middle: Image, after: seq<Image>, j: nat)
    requires after != []
    ensures AfterWrites(d, before + [middle] + after, j) ==
            if j <= |before| then AfterWrites(d, before, j) else AfterWrites(middle, after, j - |before| - 1)
  {
  }

  lemma CommitImagesAre(a: Area, d: Image, lh: seq<int>, vals: seq<Block>, headed: Image)
    requires Idle(a, d) && WfHead(a, d, lh) && 0 < |lh| == |vals|
    requires LogCopied(a, d, vals, |lh|)[a.start] == d[a.start] && headed == Headed(a, LogCopied(a, d, vals, |lh|), lh)
    ensures WfImage(a, headed)
    ensures CommitImages(a, d, lh, vals) == LogWrites(a, d, vals, |lh|) + [headed] + RecoverImages(a, headed)
  {
    hide HeadOf, Headed, LogCopied, LogWrites, RecoverImages, Recovered, Updated;
    HeaderCommits(a, d, lh, vals);
  }

  /** Power fails after j of write_log's writes. */
  lemma AfterLogWrites(a: Area, d: Image, vals: seq<Block>, n: nat, j: nat)
    requires j <= n <= |vals|
    ensures AfterWrites(d, LogWrites(a, d, vals, n), j) == LogCopied(a, d, vals, j)
  {
    if j == 0 {
      assert LogCopied(a, d, vals, 0) == d;
    }
  }

  /** The commit's writes are the log copies, the header, and then exactly a recovery. */
  lemma CommitPhases(a: Area, d: Image, lh: seq<int>, vals: seq<Block>, j: nat)
    requires Idle(a, d) && WfHead(a, d, lh) && 0 < |lh| == |vals|
    ensures var headed := Headed(a, LogCopied(a, d, vals, |lh|), lh);
            && WfImage(a, headed)
            && AfterWrites(d, CommitImages(a, d, lh, vals), j) ==
               if j <= |lh| then LogCopied(a, d, vals, j) else AfterWrites(headed, RecoverImages(a, headed), j - |lh| - 1)
  {
    assert LogCopied(a, d, vals, |lh|)[a.start] == d[a.start];
    hide HeadOf, Headed, LogCopied, RecoverImages, CommitImages, AfterWrites;
    var headed := Headed(a, LogCopied(a, d, vals, |lh|), lh);
    CommitImagesAre(a, d, lh, vals, headed);
    AfterWritesSplit(d, LogWrites(a, d, vals, |lh|), headed, RecoverImages(a, headed), j);
    if j <= |lh| {
      AfterLogWrites(a, d, vals, |lh|, j);
    }
  }

  lemma CommitLength(a: Area, d: Image, lh: seq<int>, vals: seq<Block>)
    requires Idle(a, d) && WfHead(a, d, lh) && 0 < |lh| == |vals|
    ensures var headed := Headed(a, LogCopied(a, d, vals, |lh|), lh);
            WfImage(a, headed) && |CommitImages(a, d, lh, vals)| == |lh| + 1 + |RecoverImages(a, headed)|
  {
    assert LogCopied(a, d, vals, |lh|)[a.start] == d[a.start];
    hide HeadOf, Headed, LogCopied, RecoverImages, CommitImages;
    CommitImagesAre(a, d, lh, vals, Headed(a, LogCopied(a, d, vals, |lh|), lh));
  }

  /** A commit cut off after j writes is all-old before the header write, and all-new from it on. */
  lemma CommitAtomic(a: Area, d: Image, lh: seq<int>, vals: seq<Block>, j: nat)
    requires Idle(a, d) && WfHead(a, d, lh) && |vals| == |lh|
    ensures var images := CommitImages(a, d, lh, vals);
            var d' := AfterWrites(d, images, j);
            && WfImage(a, d')
            && Recovered(a, d') == (if j <= |lh| then HomeBlocks(a, d) else Updated(a, d, lh, vals))
            && (j >= |images| ==> Idle(a, d') && HomeBlocks(a, d') == Updated(a, d, lh, vals))
  {
    if lh == [] {
      assert Replayed(a, d, []) == HomeBlocks(a, d) == Updated(a, d, lh, vals);
    } else {
      hide HeadOf, LogCopied, RecoverImages, AfterWrites, Updated;
      CommitPhases(a, d, lh, vals, j);
      CommitLength(a, d, lh, vals);
      HeaderCommits(a, d, lh, vals);
      if j <= |lh| {
        LogCopyInvisible(a, d, lh, vals, j);
        assert Replayed(a, d, []) == HomeBlocks(a, d);
      } else {
        RecoveryKeepsMeaning(a, Headed(a, LogCopied(a, d, vals, |lh|), lh), j - |lh| - 1);
      }
    }
  }

  /**
   The crash-safety theorem: power fails after j writes of a commit, then again during any number of
   recoveries, each cut off anywhere. The recovery that finally completes leaves the home blocks all-old
   or all-new, all-new exactly when the non-empty header had reached the disk, and nothing else changed.
   */
  lemma CrashSafety(a: Area, d: Image, lh: seq<int>, vals: seq<Block>, j: nat, js: seq<nat>)
    requires Idle(a, d) && WfHead(a, d, lh) && |vals| == |lh|
    ensures var crashed := AfterWrites(d, CommitImages(a, d, lh, vals), j);
            && WfImage(a, crashed)
            && var interrupted := AfterCrashes(a, crashed, js);
            && WfImage(a, interrupted)
            && var images := RecoverImages(a, interrupted);
            var final := images[|images| - 1];
            && Idle(a, final)
            && HomeBlocks(a, final) == (if j <= |lh| then HomeBlocks(a, d) else Updated(a, d, lh, vals))
  {
    CommitAtomic(a, d, lh, vals, j);
    var crashed := AfterWrites(d, CommitImages(a, d, lh, vals), j);
    NestedCrashes(a, crashed, js);
    var interrupted := AfterCrashes(a, crashed, js);
    RecoveryKeepsMeaning(a, interrupted, |RecoverImages(a, interrupted)|);
  }

  /**
   The in-memory side: struct log, the valid buffers of the cache, and the disk they are written to.
   trace records every image the disk has held, so that a power failure may select any of them.
   */
  class Log {
    const area: Area
    var disk: Image
    var cache: map<int, Block>
    var n: nat
    var block: seq<int>
    ghost var trace: seq<Image>

    constructor (area: Area, disk: Image)
      requires WfImage(area, disk)
      ensures this.area == area && this.disk == disk && cache == map[] && trace == [disk] && n == 0 && |block| == LOGSIZE
    {
      this.area, this.disk, cache, n := area, disk, map[], 0;
      block := seq(LOGSIZE, _ => 0);
      trace := [disk];
    }

    ghost predicate Shape()
      reads this
    {
      && WfImage(area, disk)
      && |block| == LOGSIZE
      && n <= LOGSIZE
      && WfHead(area, disk, block[..n])
    }

    ghost predicate Coherent(lh: seq<int>, k: nat)
      reads this
    {
      CoherentWith(cache, disk, lh, k)
    }

    /** log_write pins each logged block, so its buffer is still in the cache. */
    ghost predicate Pinned()
      reads this
      requires n <= |block|
    {
      forall i :: 0 <= i < n ==> block[..n][i] in cache
    }

    method Bread(b: int) returns (data: Block)
      requires 0 <= b < |disk|
      modifies this`cache
      ensures data == (if b in old(cache) then old(cache)[b] else disk[b])
      ensures cache == old(cache)[b := data]
    {
      if b !in cache {
        cache := cache[b := disk[b]];
      }
      data := cache[b];
    }

    /** Overwrite the buffer of block b and bwrite it. */
    method Bwrite(b: int, data: Block)
      requires 0 <= b < |disk|
      modifies this`cache, this`disk, this`trace
      ensures disk == old(disk)[b := data] && cache == old(cache)[b := data] && trace == old(trace) + [disk]
    {
      cache := cache[b := data];
      disk := disk[b := data];
      trace := trace + [disk];
    }

    method WriteHead()
      requires |block| == LOGSIZE && n <= LOGSIZE && area.start < |disk| && WfBlock(disk[area.start])
      requires area.start in cache ==> cache[area.start] == disk[area.start]
      modifies this`cache, this`disk, this`trace
      ensures disk == Headed(area, old(disk), block[..n])
      ensures trace == old(trace) + [disk]
      ensures cache == old(cache)[area.start := disk[area.start]]
    {
      var buf := Bread(area.start);
      var words := buf.words[0 := n];
      var i := 0;
      while i < n
        invariant 0 <= i <= n && |words| == WORDS
        invariant words == [n] + block[..i] + buf.words[1 + i..]
      {
        words := words[1 + i := block[i]];
        assert block[..i + 1] == block[..i] + [block[i]];
        i := i + 1;
      }
      Bwrite(area.start, Block(words));
    }

    method ReadHead()
      requires WfImage(area, disk) && |block| == LOGSIZE && Coherent([], 0)
      modifies this`cache, this`n, this`block
      ensures |block| == LOGSIZE && n <= LOGSIZE && block[..n] == HeadOf(disk[area.start])
      ensures Coherent([], 0)
    {
      var buf := Bread(area.start);
      n := buf.words[0];
      assert buf == disk[area.start];
      var i := 0;
      while i < n
        invariant 0 <= i <= n == buf.words[0] && |block| == LOGSIZE
        invariant block[..i] == buf.words[1..1 + i]
        invariant Coherent([], 0)
      {
        ghost var done := block[..i];
        block := block[i := buf.words[1 + i]];
        assert block[..i + 1] == done + [buf.words[1 + i]];
        i := i + 1;
      }
    }

    /** One iteration of write_log: bread the data slot and the cached block, copy, bwrite. */
    method WriteOne(ghost d: Image, ghost vals: seq<Block>, tail: nat)
      requires Shape() && tail < n == |vals| && |d| == |disk| && disk == LogCopied(area, d, vals, tail)
      requires Pinned() && Values(cache, block[..n]) == vals && Coherent(block[..n], 0)
      modifies this`cache, this`disk, this`trace
      ensures disk == LogCopied(area, d, vals, tail + 1) && trace == old(trace) + [disk]
      ensures Pinned() && Values(cache, block[..n]) == vals && Coherent(block[..n], 0)
    {
      ghost var lh, was := block[..n], cache;
      LogCopySlot(area, disk, lh, tail);
      LogCopyStep(area, d, vals, tail);
      LogCopyCoherence(cache, disk, lh, area.start + 1 + tail, vals[tail]);
      hide LogCopied, WfImage, WfHead, CoherentWith;
      var to := Bread(area.start + tail + 1);
      var from := Bread(block[tail]);
      assert block[tail] == lh[tail] && from == vals[tail];
      Bwrite(area.start + tail + 1, from);
      assert cache == was[area.start + 1 + tail := from];
    }

    method WriteLog()
      requires Shape() && Idle(area, disk) && Pinned() && Coherent(block[..n], 0)
      modifies this`cache, this`disk, this`trace
      ensures disk == LogCopied(area, old(disk), old(Values(cache, block[..n])), n)
      ensures trace == old(trace) + LogWrites(area, old(disk), old(Values(cache, block[..n])), n)
      ensures Pinned() && Values(cache, block[..n]) == old(Values(cache, block[..n])) && Coherent(block[..n], 0)
    {
      ghost var d, vals := disk, Values(cache, block[..n]);
      assert LogCopied(area, d, vals, 0) == d;
      var tail := 0;
      while tail < n
        invariant 0 <= tail <= n && Shape()
        invariant disk == LogCopied(area, d, vals, tail)
        invariant trace == old(trace) + LogWrites(area, d, vals, tail)
        invariant Pinned() && Values(cache, block[..n]) == vals && Coherent(block[..n], 0)
      {
        LogCopyStep(area, d, vals, tail);
        WriteOne(d, vals, tail);
        LogCopyShape(area, d, block[..n], vals, tail + 1);
        tail := tail + 1;
      }
    }

    /** One iteration of install_trans: bread the data slot and the home block, copy, bwrite. */
    method InstallOne(ghost d: Image, tail: nat)
      requires |block| == LOGSIZE && tail < n <= LOGSIZE && WfImage(area, d) && HeadOf(d[area.start]) == block[..n]
      requires disk == Installed(area, d, block[..n], tail) && Coherent(block[..n], tail)
      modifies this`cache, this`disk, this`trace
      ensures disk == Installed(area, d, block[..n], tail + 1) && Coherent(block[..n], tail + 1)
      ensures trace == old(trace) + [disk]
      ensures InstallWrites(area, d, block[..n], tail) + [disk] == InstallWrites(area, d, block[..n], tail + 1)
    {
      InstallReads(area, d, block[..n], tail, cache, disk);
      var lbuf := Bread(area.start + tail + 1);
      var dbuf := Bread(block[tail]);
      InstallCoherence(disk, block[..n], tail, cache, lbuf);
      Bwrite(block[tail], lbuf);
    }

    /** With the header already on disk naming block[..n], copy every data slot home. */
    method InstallTrans()
      requires Shape() && HeadOf(disk[area.start]) == block[..n]
      requires Coherent(block[..n], 0)
      modifies this`cache, this`disk, this`trace
      ensures disk == Installed(area, old(disk), block[..n], n)
      ensures trace == old(trace) + InstallWrites(area, old(disk), block[..n], n)
      ensures Coherent([], 0)
    {
      ghost var lh := block[..n];
      var tail := 0;
      while tail < n
        invariant 0 <= tail <= n
        invariant disk == Installed(area, old(disk), lh, tail)
        invariant trace == old(trace) + InstallWrites(area, old(disk), lh, tail)
        invariant Coherent(lh, tail)
      {
        InstallOne(old(disk), tail);
        tail := tail + 1;
      }
    }

    /** install_trans, then the header write that erases the transaction. */
    method InstallAndClear()
      requires Shape() && HeadOf(disk[area.start]) == block[..n] && Coherent(block[..n], 0)
      modifies this`cache, this`disk, this`trace, this`n
      ensures trace == old(trace) + RecoverImages(area, old(disk))
      ensures disk == trace[|trace| - 1]
      ensures Shape() && Coherent([], 0) && n == 0
    {
      InstallTrans();
      InstallKeepsLog(area, old(disk), n);
      InstallCompletes(area, old(disk));
      n := 0;
      WriteHead();
    }

    method RecoverFromLog()
      requires WfImage(area, disk) && |block| == LOGSIZE && Coherent([], 0)
      modifies this
      ensures trace == old(trace) + RecoverImages(area, old(disk))
      ensures disk == trace[|trace| - 1]
      ensures Shape() && Coherent([], 0) && n == 0
    {
      ReadHead();
      InstallAndClear();
    }

    /** write_log, then the header write that commits. */
    method WriteLogAndHead()
      requires Shape() && Idle(area, disk) && Pinned() && Coherent(block[..n], 0)
      modifies this`cache, this`disk, this`trace
      ensures var vals := old(Values(cache, block[..n]));
              && LogCopied(area, old(disk), vals, n)[area.start] == old(disk)[area.start]
              && disk == Headed(area, LogCopied(area, old(disk), vals, n), block[..n])
              && trace == old(trace) + (LogWrites(area, old(disk), vals, n) + [disk])
      ensures Shape() && HeadOf(disk[area.start]) == block[..n] && Coherent(block[..n], 0)
    {
      ghost var vals := Values(cache, block[..n]);
      WriteLog();
      assert area.start !in block[..n] by {
        assert InLog(area, area.start);
      }
      WriteHead();
      HeaderCommits(area, old(disk), block[..n], vals);
    }

    method Commit()
      requires Shape() && Idle(area, disk) && Pinned() && Coherent(block[..n], 0)
      modifies this
      ensures trace == old(trace) + CommitImages(area, old(disk), old(block[..n]), old(Values(cache, block[..n])))
      ensures old(n) > 0 ==> disk == trace[|trace| - 1]
      ensures old(n) == 0 ==> disk == old(disk)
      ensures Shape() && Coherent([], 0) && n == 0
    {
      hide HeadOf, Headed, LogCopied, LogWrites, RecoverImages, CoherentWith, WfImage, Home;
      if n == 0 {
        assert block[..n] == [];
      } else {
        ghost var lh, vals := block[..n], Values(cache, block[..n]);
        WriteLogAndHead();
        ghost var headed := disk;
        InstallAndClear();
        CommitImagesAre(area, old(disk), lh, vals, headed);
        assert trace == old(trace) + (LogWrites(area, old(disk), vals, |lh|) + [headed] + RecoverImages(area, headed));
      }
    }

    /** Record block b in the header, absorbing a second write to the same block. */
    method LogWrite(b: int, data: Block) returns (ok: bool)
      requires Shape() && Idle(area, disk) && Pinned() && Coherent(block[..n], 0)
      requires Home(area, disk, b) && b in cache
      modifies this`cache, this`n, this`block
      ensures ok == (old(n) < LOGSIZE && old(n) < area.size - 1)
      ensures !ok ==> n == old(n) && block == old(block) && cache == old(cache)
      ensures ok ==> cache == old(cache)[b := data]
      ensures Shape() && Pinned() && Coherent(block[..n], 0)
      ensures ok ==> block[..n] == old(block[..n]) + (if b in old(block[..n]) then [] else [b])
    {
      if n >= LOGSIZE || n >= area.size - 1 {
        return false;
      }
      cache := cache[b := data];
      var i := 0;
      while i < n && block[i] != b
        invariant 0 <= i <= n
        invariant b !in block[..i]
      {
        i := i + 1;
      }
      ghost var lh := block[..n];
      assert i < n ==> lh[i] == b;
      block := block[i := b];
      if i == n {
        n := n + 1;
      }
      assert block[..n] == lh + (if b in lh then [] else [b]);
      ok := true;
    }
  }
}
