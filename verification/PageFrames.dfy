/** Physical memory page by page, and the copy of a page that fork makes. */
module PageFrames {
  import opened Bytes
  import opened Division
  import opened Frames
  import opened PageTables
  import opened Machine
  import opened Tlb

  const PHYS_MEM_SIZE: nat := NUM_PAGES * PAGE

  function PageAt(phys: Memory, frame: nat): seq<Byte> {
    if (frame + 1) * PAGE <= |phys| then phys[frame * PAGE..(frame + 1) * PAGE] else []
  }

  lemma SliceOfSlice(m: Memory, from: nat, to: nat, off: nat, n: nat)
    requires from <= to <= |m| && off + n <= to - from
    ensures m[from..to][off..off + n] == m[from + off..from + off + n]
  {
    var page := m[from..to];
    assert |page| == to - from;
    var l, r := page[off..off + n], m[from + off..from + off + n];
    assert forall k :: 0 <= k < n ==> l[k] == r[k];
  }

  /** A write into one frame changes that frame's page at that place, and no other frame. */
  lemma PutPages(phys: Memory, f: nat, off: nat, bytes: seq<Byte>, g: nat)
    requires |phys| == PHYS_MEM_SIZE && f < NUM_PAGES && off + |bytes| <= PAGE
    ensures (f + 1) * PAGE <= |phys|
    ensures PageAt(Put(phys, f * PAGE + off, bytes), g)
         == if g == f then Put(PageAt(phys, f), off, bytes) else PageAt(phys, g)
  {
    assert (f + 1) * PAGE <= NUM_PAGES * PAGE;
    var phys' := Put(phys, f * PAGE + off, bytes);
    if g < f { assert (g + 1) * PAGE <= f * PAGE; }
    if f < g { assert (f + 1) * PAGE <= g * PAGE; }
  }

  /** Outside these frames the two memories hold the same. */
  ghost predicate WritesOnly(phys: Memory, phys': Memory, frames: set<nat>) {
    |phys'| == |phys| && forall g :: g !in frames ==> PageAt(phys', g) == PageAt(phys, g)
  }

  // ---- The copy: 4096 ints, from the start of one frame to the start of another ----

  const COPIED_INTS: nat := 4096
  const COPIED_FRAMES: nat := 4

  /** `n` bytes copied at once from the memory as it was. */
  function CopyBytes(m: Memory, src: nat, dst: nat, n: nat): (r: Memory)
    requires src + n <= |m| && dst + n <= |m|
    ensures |r| == |m|
  {
    seq(|m|, i requires 0 <= i < |m| => if dst <= i < dst + n then m[src + (i - dst)] else m[i])
  }

  /** The first n rounds of the copying loop, dst[i] = src[i]. */
  function CopyWords(m: Memory, src: nat, dst: nat, n: nat): (r: Memory)
    requires src + 4 * n <= |m| && dst + 4 * n <= |m|
    ensures |r| == |m|
  {
    if n == 0 then m else CopyBytes(CopyWords(m, src, dst, n - 1), src + 4 * (n - 1), dst + 4 * (n - 1), 4)
  }

  lemma {:induction false} CopySplit(m: Memory, src: nat, dst: nat, a: nat, b: nat)
    requires src + 4 * (a + b) <= |m| && dst + 4 * (a + b) <= |m|
    ensures CopyWords(m, src, dst, a + b) == CopyWords(CopyWords(m, src, dst, a), src + 4 * a, dst + 4 * a, b)
    decreases b
  {
    if b > 0 { CopySplit(m, src, dst, a, b - 1); }
  }

  lemma WordApart(m: Memory, src: nat, dst: nat, k: nat)
    requires src + k + 4 <= |m| && dst + k + 4 <= |m| && (src + k + 4 <= dst || dst + k + 4 <= src)
    ensures CopyBytes(CopyBytes(m, src, dst, k), src + k, dst + k, 4) == CopyBytes(m, src, dst, k + 4)
  {}

  /** Without overlap the loop copies the bytes as they were. */
  lemma {:induction false} CopyApart(m: Memory, src: nat, dst: nat, n: nat)
    requires src + 4 * n <= |m| && dst + 4 * n <= |m| && (src + 4 * n <= dst || dst + 4 * n <= src)
    ensures CopyWords(m, src, dst, n) == CopyBytes(m, src, dst, 4 * n)
    decreases n
  {
    if n == 0 {
      assert CopyBytes(m, src, dst, 0) == m;
    } else {
      CopyApart(m, src, dst, n - 1);
      WordApart(m, src, dst, 4 * (n - 1));
    }
  }

  // ---- Page by page ----

  /** Both runs of frames lie inside memory. */
  predicate InMemory(f: nat, g: nat) { f + COPIED_FRAMES <= NUM_PAGES && g + COPIED_FRAMES <= NUM_PAGES }

  function CopyInts(m: Memory, f: nat, g: nat): (r: Memory)
    requires |m| == PHYS_MEM_SIZE && InMemory(f, g)
    ensures |r| == |m|
  {
    CopyWords(m, f * PAGE, g * PAGE, COPIED_INTS)
  }

  lemma PageMoved(m: Memory, f: nat, g: nat, src: nat, dst: nat, h: nat)
    requires |m| == PHYS_MEM_SIZE && f < NUM_PAGES && g < NUM_PAGES && src == f * PAGE && dst == g * PAGE
    ensures (f + 1) * PAGE <= |m| && (g + 1) * PAGE <= |m|
    ensures PageAt(CopyBytes(m, src, dst, PAGE), h) == if h == g then PageAt(m, f) else PageAt(m, h)
  {
    assert (f + 1) * PAGE <= |m| && (g + 1) * PAGE <= |m|;
    var m' := CopyBytes(m, src, dst, PAGE);
    if h == g {
      assert PageAt(m', h) == PageAt(m, f);
    } else {
      if h < g { assert (h + 1) * PAGE <= dst; } else { assert dst + PAGE <= h * PAGE; }
      assert PageAt(m', h) == PageAt(m, h);
    }
  }

  /** 1024 rounds copy one page. */
  lemma PageCopied(r: Memory, f: nat, g: nat, src: nat, dst: nat, n: nat, h: nat)
    requires |r| == PHYS_MEM_SIZE && f < NUM_PAGES && g < NUM_PAGES && f != g
    requires src == f * PAGE && dst == g * PAGE && n == 1024
    ensures src + 4 * n <= |r| && dst + 4 * n <= |r|
    ensures PageAt(CopyWords(r, src, dst, n), h) == if h == g then PageAt(r, f) else PageAt(r, h)
  {
    assert src + 4 * n <= |r| && dst + 4 * n <= |r|;
    CopyApart(r, src, dst, n);
    PageMoved(r, f, g, src, dst, h);
  }

  /** Where a frame gets its page from when frame f + k is copied to g + k. */
  function From(f: nat, g: nat, k: nat, h: nat): nat { if h == g + k then f + k else h }

  /** 1024 more rounds copy one more page, whatever the earlier ones overlapped. */
  lemma NextPage(m: Memory, f: nat, g: nat, src: nat, dst: nat, k: nat, a: nat, b: nat, h: nat)
    requires |m| == PHYS_MEM_SIZE && InMemory(f, g) && f != g && k < COPIED_FRAMES && a == 1024 * k && b == 1024
    requires src == f * PAGE && dst == g * PAGE
    ensures src + 4 * (a + b) <= |m| && dst + 4 * (a + b) <= |m|
    ensures PageAt(CopyWords(m, src, dst, a + b), h)
         == PageAt(CopyWords(m, src, dst, a), From(f, g, k, h))
  {
    assert src + 4 * a == (f + k) * PAGE && dst + 4 * a == (g + k) * PAGE;
    CopySplit(m, src, dst, a, b);
    PageCopied(CopyWords(m, src, dst, a), f + k, g + k, src + 4 * a, dst + 4 * a, b, h);
  }

  /** One page moved between the k-th and the next of several states of memory. */
  ghost predicate MovedNext<P>(pages: (nat, nat) -> P, f: nat, g: nat, k: nat) {
    forall h: nat :: pages(k + 1, h) == pages(k, From(f, g, k, h))
  }

  /**
   * Where a frame has its page from once n frames from f on are copied to g on, first to last: a target that starts
   * inside the source is read again after it is written, so the first g - f pages repeat.
   */
  function Source(f: nat, g: nat, n: nat, h: nat): nat {
    if !(g <= h < g + n) then h
    else if f < g then f + (h - g) % (g - f)
    else f + (h - g)
  }

  lemma SourceNext(f: nat, g: nat, k: nat)
    requires f != g
    ensures Source(f, g, k + 1, g + k) == Source(f, g, k, f + k)
  {
    if f < g { if k >= g - f { ModBack(k, g - f); } else { ModSmall(k, g - f); } }
  }

  lemma ModBack(k: nat, d: nat)
    requires 0 < d <= k
    ensures k % d == (k - d) % d
  {
    var q, r := (k - d) / d, (k - d) % d;
    assert k == (q + 1) * d + r;
    DivMod(q + 1, r, d);
  }

  lemma ModSmall(k: nat, d: nat)
    requires k < d
    ensures k % d == k
  {
    DivMod(0, k, d);
  }

  /** After k page moves in a row. */
  lemma {:induction false} MovedAt<P>(pages: (nat, nat) -> P, f: nat, g: nat, k: nat, h: nat)
    requires k <= COPIED_FRAMES && f != g && forall j :: 0 <= j < k ==> MovedNext(pages, f, g, j)
    ensures pages(k, h) == pages(0, Source(f, g, k, h))
    decreases k
  {
    if k > 0 {
      var j := k - 1;
      assert MovedNext(pages, f, g, j);
      assert pages(j + 1, h) == pages(j, From(f, g, j, h));
      MovedAt(pages, f, g, j, From(f, g, j, h));
      SourceNext(f, g, j);
    }
  }

  /** The pages of memory after each n rounds. */
  ghost function PagesAfter(m: Memory, src: nat, dst: nat, n: nat): (nat, nat) -> seq<Byte> {
    (k: nat, h: nat) =>
      if src + 4 * (n * k) <= |m| && dst + 4 * (n * k) <= |m| then PageAt(CopyWords(m, src, dst, n * k), h) else []
  }

  lemma StageNext(m: Memory, f: nat, g: nat, src: nat, dst: nat, n: nat, k: nat)
    requires |m| == PHYS_MEM_SIZE && InMemory(f, g) && f != g && n == 1024 && src == f * PAGE && dst == g * PAGE
    requires k < COPIED_FRAMES
    ensures MovedNext(PagesAfter(m, src, dst, n), f, g, k)
  {
    assert n * (k + 1) == n * k + n;
    var pages := PagesAfter(m, src, dst, n);
    forall h: nat ensures pages(k + 1, h) == pages(k, From(f, g, k, h)) {
      NextPage(m, f, g, src, dst, k, n * k, n, h);
    }
  }

  lemma FirstPages(m: Memory, src: nat, dst: nat, n: nat, h: nat)
    requires src <= |m| && dst <= |m|
    ensures PagesAfter(m, src, dst, n)(0, h) == PageAt(m, h)
  {
    assert n * 0 == 0;
  }

  lemma LastPages(m: Memory, f: nat, g: nat, n: nat, h: nat)
    requires |m| == PHYS_MEM_SIZE && InMemory(f, g) && n == 1024
    ensures PagesAfter(m, f * PAGE, g * PAGE, n)(COPIED_FRAMES, h) == PageAt(CopyInts(m, f, g), h)
  {
    assert n * COPIED_FRAMES == COPIED_INTS;
  }

  /** What the loop leaves in every frame, whatever overlaps: the page its source had before. */
  lemma CopyIntsAt(m: Memory, f: nat, g: nat, h: nat)
    requires |m| == PHYS_MEM_SIZE && InMemory(f, g) && f != g
    ensures PageAt(CopyInts(m, f, g), h) == PageAt(m, Source(f, g, COPIED_FRAMES, h))
  {
    var src, dst, n: nat := f * PAGE, g * PAGE, 1024;
    var pages := PagesAfter(m, src, dst, n);
    forall k | 0 <= k < COPIED_FRAMES ensures MovedNext(pages, f, g, k) { StageNext(m, f, g, src, dst, n, k); }
    MovedAt(pages, f, g, COPIED_FRAMES, h);
    FirstPages(m, src, dst, n, Source(f, g, COPIED_FRAMES, h));
    LastPages(m, f, g, n, h);
  }

  // ---- All pages of a parent ----

  /** One copy of a fork: from the parent's frame on to the child's. */
  datatype Copy = Copy(src: nat, dst: nat)

  /** The copies of a fork, known before it starts: the i-th page goes to the i-th clear frame. */
  function CopyList(p: Pool, order: seq<nat>, parent: Table): (r: seq<Copy>)
    requires forall v :: v in order ==> v in parent
    ensures |r| == |order|
  {
    seq(|order|, i requires 0 <= i < |order| => Copy(parent[order[i]].pfn, NthClear(p.bits, p.boundary, i)))
  }

  /** Every copy stays inside memory. */
  predicate AllFit(copies: seq<Copy>) { forall c :: c in copies ==> InMemory(c.src, c.dst) }

  predicate Apart(copies: seq<Copy>) { forall c :: c in copies ==> c.src != c.dst }

  /** One copy after the other. */
  function CopyPages(m: Memory, copies: seq<Copy>): (r: Memory)
    requires |m| == PHYS_MEM_SIZE && AllFit(copies)
    ensures |r| == |m|
  {
    if copies == [] then m
    else
      var (most, c) := (copies[..|copies| - 1], copies[|copies| - 1]);
      CopyInts(CopyPages(m, most), c.src, c.dst)
  }

  /** The frame whose page, as it was before all copies, a frame has after them. */
  function Origin(copies: seq<Copy>, h: nat): nat {
    if copies == [] then h
    else
      var (most, c) := (copies[..|copies| - 1], copies[|copies| - 1]);
      Origin(most, Source(c.src, c.dst, COPIED_FRAMES, h))
  }

  /** A fork's memory: the copies in order, and around them whatever the kernel writes to its own frames. */
  ghost predicate ForkEffect(m: Memory, copies: seq<Copy>, kernel: set<nat>, m': Memory)
    requires AllFit(copies)
    decreases |copies|
  {
    if copies == [] then WritesOnly(m, m', kernel)
    else
      var (most, c) := (copies[..|copies| - 1], copies[|copies| - 1]);
      exists k: Memory ::
        |k| == PHYS_MEM_SIZE && ForkEffect(m, most, kernel, k) && WritesOnly(CopyInts(k, c.src, c.dst), m', kernel)
  }

  /** The copies alone are such an effect. */
  lemma {:induction false} CopyPagesEffect(m: Memory, copies: seq<Copy>, kernel: set<nat>)
    requires |m| == PHYS_MEM_SIZE && AllFit(copies)
    ensures ForkEffect(m, copies, kernel, CopyPages(m, copies))
    decreases |copies|
  {
    if copies != [] {
      CopyPagesEffect(m, copies[..|copies| - 1], kernel);
      assert |CopyPages(m, copies[..|copies| - 1])| == PHYS_MEM_SIZE;
    }
  }

  /** The memory before the last copy. */
  lemma BeforeLast(m: Memory, copies: seq<Copy>, kernel: set<nat>, m': Memory) returns (k: Memory)
    requires AllFit(copies) && copies != [] && ForkEffect(m, copies, kernel, m')
    ensures var (most, c) := (copies[..|copies| - 1], copies[|copies| - 1]);
      && c in copies && AllFit(most) && InMemory(c.src, c.dst)
      && |k| == PHYS_MEM_SIZE && ForkEffect(m, most, kernel, k) && WritesOnly(CopyInts(k, c.src, c.dst), m', kernel)
  {
    var most, c := copies[..|copies| - 1], copies[|copies| - 1];
    assert c in copies;
    k :| |k| == PHYS_MEM_SIZE && ForkEffect(m, most, kernel, k) && WritesOnly(CopyInts(k, c.src, c.dst), m', kernel);
  }

  /** No copy reads a frame of the kernel. */
  ghost predicate ReadsClear(copies: seq<Copy>, kernel: set<nat>) {
    forall c, f: nat :: c in copies && c.src <= f < c.src + COPIED_FRAMES ==> f !in kernel
  }

  lemma SourceClear(c: Copy, kernel: set<nat>, h: nat)
    requires h !in kernel && forall f: nat :: c.src <= f < c.src + COPIED_FRAMES ==> f !in kernel
    ensures Source(c.src, c.dst, COPIED_FRAMES, h) !in kernel
  {
    var s := Source(c.src, c.dst, COPIED_FRAMES, h);
    if s != h && c.src < c.dst { ModAtMost(h - c.dst, c.dst - c.src); }
  }

  lemma ModAtMost(a: nat, d: nat)
    requires d > 0
    ensures a % d <= a
  {}

  /** After a fork a frame holds the page its origin had before it, whatever overlaps and whatever the kernel writes. */
  lemma {:induction false} ForkPage(m: Memory, copies: seq<Copy>, kernel: set<nat>, m': Memory, h: nat)
    requires |m| == PHYS_MEM_SIZE && AllFit(copies) && Apart(copies) && ReadsClear(copies, kernel)
    requires ForkEffect(m, copies, kernel, m') && h !in kernel
    ensures |m'| == |m| && PageAt(m', h) == PageAt(m, Origin(copies, h))
    decreases |copies|
  {
    if copies != [] {
      var most, c := copies[..|copies| - 1], copies[|copies| - 1];
      var k := BeforeLast(m, copies, kernel, m');
      var from := Source(c.src, c.dst, COPIED_FRAMES, h);
      SourceClear(c, kernel, h);
      CopyIntsAt(k, c.src, c.dst, h);
      ForkPage(m, most, kernel, k, from);
    }
  }

  /** A memory that is zero but for one frame. */
  function Marked(f: nat): (m: Memory)
    ensures |m| == PHYS_MEM_SIZE
  {
    seq(PHYS_MEM_SIZE, i requires 0 <= i < PHYS_MEM_SIZE => if f * PAGE <= i < (f + 1) * PAGE then 1 else 0)
  }

  lemma MarkedPage(f: nat, h: nat)
    requires f < NUM_PAGES && h != f
    ensures PageAt(Marked(f), h) != PageAt(Marked(f), f)
  {
    var m := Marked(f);
    assert (f + 1) * PAGE <= |m| && |PageAt(m, f)| == PAGE;
    assert PageAt(m, f)[0] == m[f * PAGE] == 1;
    if (h + 1) * PAGE <= |m| {
      assert h * PAGE + PAGE <= f * PAGE || (f + 1) * PAGE <= h * PAGE;
      assert PageAt(m, h)[0] == m[h * PAGE] == 0;
    }
  }

  /** Whatever memory holds before and whatever the kernel writes, frame h then has the page frame f had. */
  ghost predicate AlwaysFrom(copies: seq<Copy>, kernel: set<nat>, h: nat, f: nat)
    requires AllFit(copies)
  {
    forall m: Memory, m': Memory :: |m| == PHYS_MEM_SIZE && ForkEffect(m, copies, kernel, m') ==> PageAt(m', h) == PageAt(m, f)
  }

  lemma OtherFrame(copies: seq<Copy>, kernel: set<nat>, h: nat, f: nat)
    requires AllFit(copies) && Apart(copies) && ReadsClear(copies, kernel) && h !in kernel && f < NUM_PAGES
    requires Origin(copies, h) != f
    ensures !AlwaysFrom(copies, kernel, h, f)
  {
    var m := Marked(f);
    CopyPagesEffect(m, copies, kernel);
    ForkPage(m, copies, kernel, CopyPages(m, copies), h);
    MarkedPage(f, Origin(copies, h));
  }

  /** The origin is all there is to it: a frame gets a given frame's page for every memory only if that is its origin. */
  lemma OriginOnly(copies: seq<Copy>, kernel: set<nat>, h: nat, f: nat)
    requires AllFit(copies) && Apart(copies) && ReadsClear(copies, kernel) && h !in kernel && f < NUM_PAGES
    ensures AlwaysFrom(copies, kernel, h, f) <==> Origin(copies, h) == f
  {
    if Origin(copies, h) == f {
      forall m: Memory, m': Memory | |m| == PHYS_MEM_SIZE && ForkEffect(m, copies, kernel, m')
        ensures PageAt(m', h) == PageAt(m, f)
      {
        ForkPage(m, copies, kernel, m', h);
      }
    } else {
      OtherFrame(copies, kernel, h, f);
    }
  }

  /** Where the copies write: each target frame and the three after it. */
  ghost predicate CopiedTo(copies: seq<Copy>, g: nat) {
    exists c :: c in copies && c.dst <= g < c.dst + COPIED_FRAMES
  }

  /** A frame no copy reaches is its own origin. */
  lemma {:induction false} OutOfReach(copies: seq<Copy>, g: nat)
    requires !CopiedTo(copies, g)
    ensures Origin(copies, g) == g
    decreases |copies|
  {
    if copies != [] {
      assert copies[|copies| - 1] in copies;
      OutOfReach(copies[..|copies| - 1], g);
    }
  }

  /** Targets go up with the order of the copies. */
  ghost predicate Ascending(copies: seq<Copy>) {
    forall i, j :: 0 <= i < j < |copies| ==> copies[i].dst < copies[j].dst
  }

  /** No later copy writes the i-th target, so its page is what the parent's frame has after the copies before. */
  lemma {:induction false} TargetOrigin(copies: seq<Copy>, i: nat)
    requires Ascending(copies) && Apart(copies) && i < |copies|
    ensures Origin(copies, copies[i].dst) == Origin(copies[..i], copies[i].src)
    decreases |copies|
  {
    var most := copies[..|copies| - 1];
    if i == |most| {
      assert copies[i] in copies && copies[..i] == most;
    } else {
      assert most[..i] == copies[..i] && most[i] == copies[i];
      TargetOrigin(most, i);
    }
  }
}
