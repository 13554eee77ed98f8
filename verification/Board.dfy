/** The board's post log: authors and tombstones read the head, do other things, and append later; the
  repository checks the append against the head of that moment. */
module Board {
  import opened Outcomes
  import opened Merkle
  import opened HashChain

  type PostId = string

  /** The signed body, which the post's hash covers; chain fields are assigned by the server. */
  datatype Body = Body(id: PostId, text: string)

  datatype Post = Post(body: Body, number: int, prevHash: Hash, postHash: Hash) {
    function AsLink(): Link<Body> {
      Link(number, prevHash, postHash, body)
    }
  }

  datatype Head = Head(number: int, postHash: Hash)

  datatype Repo = Repo(log: seq<Post>, byId: map<PostId, Post>, head: Option<Head>)

  function HeadNumber(head: Option<Head>): int {
    if head.Some? then head.value.number else 0
  }

  /** The repository's append: it looks at the id and the number, not at the previous hash. */
  function Append(r: Repo, post: Post): Outcome<Repo> {
    if post.body.id in r.byId then Thrown(r, Conflict)
    else if post.number != HeadNumber(r.head) + 1 then Thrown(r, Conflict)
    else Done(Repo(r.log + [post], r.byId[post.body.id := post], Some(Head(post.number, post.postHash))))
  }

  class MemoryPostRepo {
    var log: seq<Post>
    var byId: map<PostId, Post>
    var headRef: Option<Head>

    ghost function Contents(): Repo
      reads this
    {
      Repo(log, byId, headRef)
    }

    constructor ()
      ensures Contents() == Repo([], map[], None)
    {
      log, byId, headRef := [], map[], None;
    }

    method AppendPost(post: Post) returns (error: Option<Error>)
      modifies this
      ensures Contents() == Append(old(Contents()), post).state
      ensures error == ErrorOf(Append(old(Contents()), post))
    {
      if post.body.id in byId { return Some(Conflict); }
      var expected := (if headRef.Some? then headRef.value.number else 0) + 1;
      if post.number != expected { return Some(Conflict); }
      log := log + [post];
      byId := byId[post.body.id := post];
      headRef := Some(Head(post.number, post.postHash));
      error := None;
    }
  }

  // ---- many writers -----------------------------------------------------------------------

  /** A post or tombstone that has read the head and not yet appended. */
  datatype Draft = Draft(body: Body, seen: Option<Head>)

  /** A root put on the ledger under a post's number, by a writer that reads the hashes again. */
  datatype Anchor = Anchor(root: Hash, number: int)

  datatype Board = Board(repo: Repo, drafts: map<nat, Draft>, stored: map<nat, int>, anchors: seq<Anchor>)

  datatype Step = ReadHead(w: nat, body: Body) | AppendDraft(w: nat) | WriteAnchor(w: nat)

  /** The post a draft becomes, from the head that was read. */
  function PostOf(h: ChainHash<Body>, d: Draft): Post {
    var prevHash := if d.seen.Some? then d.seen.value.postHash else GENESIS_PREV_HASH;
    Post(d.body, HeadNumber(d.seen) + 1, prevHash, h(prevHash, d.body))
  }

  predicate CanStep(b: Board, step: Step) {
    match step
    case ReadHead(w, _) => w !in b.drafts && w !in b.stored
    case AppendDraft(w) => w in b.drafts
    case WriteAnchor(w) => w in b.stored
  }

  /** The pair hash and the hash of nothing, for the anchored roots. */
  datatype RootHash = RootHash(pair: PairHash, empty: Hash)

  function RootOf(root: RootHash, log: seq<Post>): Hash {
    Root(root.pair, root.empty, Hashes(log))
  }

  function Take(h: ChainHash<Body>, root: RootHash, b: Board, step: Step): Board
    requires CanStep(b, step)
  {
    match step
    case ReadHead(w, body) => b.(drafts := b.drafts[w := Draft(body, b.repo.head)])
    case AppendDraft(w) =>
      var post := PostOf(h, b.drafts[w]);
      var o := Append(b.repo, post);
      b.(repo := o.state, drafts := b.drafts - {w}, stored := if o.Done? then b.stored[w := post.number] else b.stored)
    case WriteAnchor(w) =>
      b.(stored := b.stored - {w}, anchors := b.anchors + [Anchor(RootOf(root, b.repo.log), b.stored[w])])
  }

  function Links(log: seq<Post>): (links: seq<Link<Body>>)
    ensures |links| == |log| && forall i | 0 <= i < |log| :: links[i] == log[i].AsLink()
  {
    seq(|log|, i requires 0 <= i < |log| => log[i].AsLink())
  }

  function HeadOf(log: seq<Post>): Option<Head> {
    if log == [] then None else Some(Head(log[|log| - 1].number, log[|log| - 1].postHash))
  }

  ghost predicate UniqueIds(log: seq<Post>) {
    forall i, j | 0 <= i < j < |log| :: log[i].body.id != log[j].body.id
  }

  /** The stored posts are a gapless chain from genesis with unique ids, and the repository's index
    and head agree with them. */
  ghost predicate RepoOk(h: ChainHash<Body>, r: Repo) {
    && Chained(h, GENESIS_PREV_HASH, Links(r.log)) && UniqueIds(r.log)
    && r.head == HeadOf(r.log)
    && Indexed(r.log, r.byId)
  }

  ghost predicate Indexed(log: seq<Post>, byId: map<PostId, Post>) {
    && (forall i | 0 <= i < |log| :: log[i].body.id in byId && byId[log[i].body.id] == log[i])
    && (forall id | id in byId :: IsStored(log, byId[id]) && byId[id].body.id == id)
  }

  ghost predicate IsStored(log: seq<Post>, post: Post) {
    exists i | 0 <= i < |log| :: log[i] == post
  }

  lemma IndexExtends(log: seq<Post>, byId: map<PostId, Post>, post: Post)
    requires Indexed(log, byId) && UniqueIds(log) && post.body.id !in byId
    ensures Indexed(log + [post], byId[post.body.id := post]) && UniqueIds(log + [post])
  {
    var log', byId' := log + [post], byId[post.body.id := post];
    forall id | id in byId' ensures IsStored(log', byId'[id]) && byId'[id].body.id == id {
      if id == post.body.id {
        assert log'[|log|] == post;
      } else {
        assert IsStored(log, byId[id]);
        var i :| 0 <= i < |log| && log[i] == byId[id];
        assert log'[i] == byId[id];
      }
    }
  }

  /** Every draft has read the head of some prefix of the log. */
  ghost predicate DraftOk(r: Repo, d: Draft) {
    exists n | 0 <= n <= |r.log| :: d.seen == HeadOf(r.log[..n])
  }

  /** A root under a post's number covers at least the posts up to it, and no post that is not stored. */
  ghost predicate AnchorOk(root: RootHash, log: seq<Post>, a: Anchor) {
    exists n | 0 <= n <= |log| :: a.number <= n && a.root == RootOf(root, log[..n])
  }

  ghost predicate BoardOk(h: ChainHash<Body>, root: RootHash, b: Board) {
    && RepoOk(h, b.repo)
    && (forall w | w in b.drafts :: DraftOk(b.repo, b.drafts[w]))
    && (forall w | w in b.stored :: b.stored[w] <= |b.repo.log|)
    && (forall i | 0 <= i < |b.anchors| :: AnchorOk(root, b.repo.log, b.anchors[i]))
  }

  lemma HeadNumbers(h: ChainHash<Body>, r: Repo, n: nat)
    requires RepoOk(h, r) && n <= |r.log|
    ensures HeadNumber(HeadOf(r.log[..n])) == n
  {
    if n > 0 {
      assert Follows(h, GENESIS_PREV_HASH, Links(r.log)[..n - 1], Links(r.log)[n - 1]);
    }
  }

  /** A draft is stored exactly when its id is new and the head it read is still the head; a stale
    draft is refused and changes nothing. */
  lemma AcceptedIff(h: ChainHash<Body>, r: Repo, d: Draft)
    requires RepoOk(h, r) && DraftOk(r, d)
    ensures Append(r, PostOf(h, d)).Done?
            <==> d.seen == r.head && forall i | 0 <= i < |r.log| :: r.log[i].body.id != d.body.id
    ensures Append(r, PostOf(h, d)).Thrown? ==> Append(r, PostOf(h, d)).state == r
  {
    var n :| 0 <= n <= |r.log| && d.seen == HeadOf(r.log[..n]);
    HeadNumbers(h, r, n);
    HeadNumbers(h, r, |r.log|);
    assert r.log[..|r.log|] == r.log;
  }

  lemma FreshPostFollows(h: ChainHash<Body>, r: Repo, d: Draft)
    requires RepoOk(h, r) && d.seen == r.head
    ensures Follows(h, GENESIS_PREV_HASH, Links(r.log), PostOf(h, d).AsLink())
  {
    HeadNumbers(h, r, |r.log|);
    assert r.log[..|r.log|] == r.log;
    hide Chained, UniqueIds, Indexed;
  }

  lemma AcceptedKeepsChain(h: ChainHash<Body>, r: Repo, d: Draft)
    requires RepoOk(h, r) && DraftOk(r, d) && Append(r, PostOf(h, d)).Done?
    ensures Chained(h, GENESIS_PREV_HASH, Links(r.log + [PostOf(h, d)])) && PostOf(h, d).number == |r.log| + 1
  {
    AcceptedIff(h, r, d);
    FreshPostFollows(h, r, d);
    hide Chained, UniqueIds, Indexed, DraftOk, PostOf, Append;
    assert Links(r.log + [PostOf(h, d)]) == Links(r.log) + [PostOf(h, d).AsLink()];
    ExtendsIff(h, GENESIS_PREV_HASH, Links(r.log), PostOf(h, d).AsLink());
  }

  lemma AcceptedKeepsRepo(h: ChainHash<Body>, r: Repo, d: Draft)
    requires RepoOk(h, r) && DraftOk(r, d) && Append(r, PostOf(h, d)).Done?
    ensures RepoOk(h, Append(r, PostOf(h, d)).state)
  {
    AcceptedIff(h, r, d);
    AcceptedKeepsChain(h, r, d);
    IndexExtends(r.log, r.byId, PostOf(h, d));
    hide Chained, Links, DraftOk, PostOf, Indexed, UniqueIds;
  }

  lemma DraftStaysOk(r: Repo, r': Repo, d: Draft)
    requires DraftOk(r, d) && r.log <= r'.log
    ensures DraftOk(r', d)
  {
    var n :| 0 <= n <= |r.log| && d.seen == HeadOf(r.log[..n]);
    assert r'.log[..n] == r.log[..n];
  }

  lemma AnchorStaysOk(root: RootHash, log: seq<Post>, log': seq<Post>, a: Anchor)
    requires AnchorOk(root, log, a) && log <= log'
    ensures AnchorOk(root, log', a)
  {
    hide RootOf;
    var n :| 0 <= n <= |log| && a.number <= n && a.root == RootOf(root, log[..n]);
    assert log'[..n] == log[..n];
  }

  lemma AppendKeepsRepo(h: ChainHash<Body>, root: RootHash, b: Board, w: nat)
    requires BoardOk(h, root, b) && w in b.drafts
    ensures var b' := Take(h, root, b, AppendDraft(w));
            && RepoOk(h, b'.repo) && b.repo.log <= b'.repo.log && b'.anchors == b.anchors && b'.drafts == b.drafts - {w}
            && forall v | v in b'.stored :: b'.stored[v] <= |b'.repo.log|
  {
    if Append(b.repo, PostOf(h, b.drafts[w])).Done? {
      AcceptedKeepsRepo(h, b.repo, b.drafts[w]);
      AcceptedKeepsChain(h, b.repo, b.drafts[w]);
    } else {
      AcceptedIff(h, b.repo, b.drafts[w]);
    }
    hide RepoOk, PostOf, DraftOk, AnchorOk;
  }

  lemma AppendKeepsBoard(h: ChainHash<Body>, root: RootHash, b: Board, w: nat)
    requires BoardOk(h, root, b) && w in b.drafts
    ensures BoardOk(h, root, Take(h, root, b, AppendDraft(w))) && b.repo.log <= Take(h, root, b, AppendDraft(w)).repo.log
  {
    AppendKeepsRepo(h, root, b, w);
    hide RepoOk, DraftOk, AnchorOk, Take;
    var b' := Take(h, root, b, AppendDraft(w));
    forall v | v in b'.drafts ensures DraftOk(b'.repo, b'.drafts[v]) {
      DraftStaysOk(b.repo, b'.repo, b.drafts[v]);
    }
    forall i | 0 <= i < |b'.anchors| ensures AnchorOk(root, b'.repo.log, b'.anchors[i]) {
      AnchorStaysOk(root, b.repo.log, b'.repo.log, b.anchors[i]);
    }
  }

  lemma StepKeepsBoard(h: ChainHash<Body>, root: RootHash, b: Board, step: Step)
    requires BoardOk(h, root, b) && CanStep(b, step)
    ensures BoardOk(h, root, Take(h, root, b, step)) && b.repo.log <= Take(h, root, b, step).repo.log
  {
    match step
    case ReadHead(w, body) => ReadKeepsBoard(h, root, b, w, body);
    case AppendDraft(w) => AppendKeepsBoard(h, root, b, w);
    case WriteAnchor(w) => AnchorKeepsBoard(h, root, b, w);
  }

  lemma ReadKeepsBoard(h: ChainHash<Body>, root: RootHash, b: Board, w: nat, body: Body)
    requires BoardOk(h, root, b)
    ensures BoardOk(h, root, b.(drafts := b.drafts[w := Draft(body, b.repo.head)]))
  {
    assert b.repo.log[..|b.repo.log|] == b.repo.log;
    assert DraftOk(b.repo, Draft(body, b.repo.head));
    hide RepoOk, DraftOk, AnchorOk;
  }

  lemma AnchorKeepsBoard(h: ChainHash<Body>, root: RootHash, b: Board, w: nat)
    requires BoardOk(h, root, b) && w in b.stored
    ensures BoardOk(h, root, b.(stored := b.stored - {w}, anchors := b.anchors + [Anchor(RootOf(root, b.repo.log), b.stored[w])]))
  {
    assert b.repo.log[..|b.repo.log|] == b.repo.log;
    hide RepoOk, RootOf, DraftOk;
    assert AnchorOk(root, b.repo.log, Anchor(RootOf(root, b.repo.log), b.stored[w]));
    hide AnchorOk;
  }

  /** An anchor written before anyone else appends holds the root of exactly the posts up to its
    number. */
  lemma PromptAnchorExact(h: ChainHash<Body>, root: RootHash, b: Board, w: nat)
    requires BoardOk(h, root, b) && w in b.stored && b.stored[w] == |b.repo.log|
    ensures var b' := Take(h, root, b, WriteAnchor(w)); var a := b'.anchors[|b.anchors|];
            a.number == |b.repo.log| && a.root == RootOf(root, b.repo.log[..a.number])
  {
    assert b.repo.log[..|b.repo.log|] == b.repo.log;
  }

  /** A post that nobody interrupts is stored under the next number, on the head it read, and its anchor
    covers exactly the posts up to it. */
  lemma PostAloneStored(h: ChainHash<Body>, root: RootHash, b: Board, w: nat, body: Body)
    requires BoardOk(h, root, b) && w !in b.drafts && w !in b.stored && forall i | 0 <= i < |b.repo.log| :: b.repo.log[i].body.id != body.id
    ensures CanStep(b, ReadHead(w, body))
    ensures var b1 := Take(h, root, b, ReadHead(w, body)); CanStep(b1, AppendDraft(w))
    ensures var b1 := Take(h, root, b, ReadHead(w, body)); var b2 := Take(h, root, b1, AppendDraft(w)); var n := |b.repo.log|;
            && CanStep(b2, WriteAnchor(w)) && |b2.repo.log| == n + 1 && b2.repo.log[..n] == b.repo.log
            && b2.repo.log[n].body == body && b2.repo.log[n].number == n + 1
            && b2.repo.log[n].prevHash == HeadHash(GENESIS_PREV_HASH, Links(b.repo.log))
            && var b3 := Take(h, root, b2, WriteAnchor(w));
               |b3.anchors| > 0 && b3.anchors[|b3.anchors| - 1] == Anchor(RootOf(root, b2.repo.log), n + 1)
  {
    var n, d := |b.repo.log|, Draft(body, b.repo.head);
    assert b.repo.log[..n] == b.repo.log;
    assert DraftOk(b.repo, d);
    AcceptedIff(h, b.repo, d);
    AcceptedKeepsChain(h, b.repo, d);
    HeadNumbers(h, b.repo, n);
    hide RepoOk, DraftOk, AnchorOk, RootOf, BoardOk;
  }

  ghost predicate IsRun(h: ChainHash<Body>, root: RootHash, trace: seq<Board>, steps: seq<Step>) {
    && |trace| == |steps| + 1 && trace[0] == Board(Repo([], map[], None), map[], map[], [])
    && forall n | 0 <= n < |steps| :: CanStep(trace[n], steps[n]) && trace[n + 1] == Take(h, root, trace[n], steps[n])
  }

  /** However posts and tombstones interleave, the stored board is a gapless chain from genesis with
    unique ids, and every anchored root is the root of some stored prefix. */
  lemma {:induction false} RunKeepsBoard(h: ChainHash<Body>, root: RootHash, trace: seq<Board>, steps: seq<Step>, n: nat)
    requires IsRun(h, root, trace, steps) && n < |trace|
    ensures BoardOk(h, root, trace[n])
    decreases n
  {
    if n > 0 {
      RunKeepsBoard(h, root, trace, steps, n - 1);
      hide BoardOk;
      StepKeepsBoard(h, root, trace[n - 1], steps[n - 1]);
    }
  }

  /** An entry once stored never changes or moves. */
  lemma {:induction false} RunKeepsEntries(h: ChainHash<Body>, root: RootHash, trace: seq<Board>, steps: seq<Step>, m: nat, n: nat)
    requires IsRun(h, root, trace, steps) && m <= n < |trace|
    ensures trace[m].repo.log <= trace[n].repo.log
    decreases n - m
  {
    if m < n {
      RunKeepsBoard(h, root, trace, steps, m);
      hide BoardOk;
      StepKeepsBoard(h, root, trace[m], steps[m]);
      RunKeepsEntries(h, root, trace, steps, m + 1, n);
    }
  }

  /** So an anchored head hash pins the whole board behind it: two boards of equal length whose last
    posts have the same hash hold the same posts. */
  lemma HeadPinsBoard(h: ChainHash<Body>, a: Repo, b: Repo)
    requires InjectiveChain(h) && RepoOk(h, a) && RepoOk(h, b) && |a.log| == |b.log|
    requires HeadHash(GENESIS_PREV_HASH, Links(a.log)) == HeadHash(GENESIS_PREV_HASH, Links(b.log))
    ensures a.log == b.log
  {
    LastHashBinds(h, GENESIS_PREV_HASH, Links(a.log), Links(b.log));
    forall i | 0 <= i < |a.log| ensures a.log[i] == b.log[i] {
      assert Links(a.log)[i] == a.log[i].AsLink() && Links(b.log)[i] == b.log[i].AsLink();
    }
  }

  function Hashes(log: seq<Post>): (hs: seq<Hash>)
    ensures |hs| == |log| && forall i | 0 <= i < |log| :: hs[i] == log[i].postHash
  {
    seq(|log|, i requires 0 <= i < |log| => log[i].postHash)
  }

  /** And so does a Merkle root anchored in the ledger. */
  lemma AnchorPinsBoard(h: ChainHash<Body>, pair: PairHash, empty: Hash, a: Repo, b: Repo)
    requires InjectiveChain(h) && Injective(pair) && RepoOk(h, a) && RepoOk(h, b) && |a.log| == |b.log|
    requires Root(pair, empty, Hashes(a.log)) == Root(pair, empty, Hashes(b.log))
    ensures a.log == b.log
  {
    RootBinding(pair, empty, Hashes(a.log), Hashes(b.log));
    if a.log != [] {
      assert Hashes(a.log)[|a.log| - 1] == Hashes(b.log)[|b.log| - 1];
    }
    HeadPinsBoard(h, a, b);
  }
}
