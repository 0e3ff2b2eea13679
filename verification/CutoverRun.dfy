/**
The confirm run of the production cutover: download, land each downloaded attempt,
promote, dispatch, ensure the drain. Every post waits for the reply of the one before;
the run stops at the first reply that does not pass its check. Replies are arbitrary:
`replies(k)` answers the k-th post.
*/
module CutoverRun {
  import opened Common

  datatype Json =
    | Null
    | Bool(b: bool)
    | Int(n: int)
    | Real(r: real)
    | String(s: string)
    | List(items: seq<Json>)
    | Object(fields: map<string, Json>)

  datatype Reply = Reply(code: int, payload: Json)

  datatype Post = Download | Land(id: int) | Promote(limit: int) | Dispatch(limit: int, drainAll: bool) | EnsureDrain

  const PROMOTE_LIMIT := 5000
  const DISPATCH_LIMIT := 50000

  datatype Step = DownloadStep | LandStep | PromoteStep | DispatchStep | DrainStep

  const STEPS: seq<Step> := [DownloadStep, LandStep, PromoteStep, DispatchStep, DrainStep]

  // ---- reading a payload --------------------------------------------------------------------

  function Field(payload: Json, name: string): Option<Json> {
    if payload.Object? && name in payload.fields then Some(payload.fields[name]) else None
  }

  predicate IsDigits(s: string) {
    s != "" && forall i | 0 <= i < |s| :: '0' <= s[i] <= '9'
  }

  function ParseDigits(s: string): nat
    requires forall i | 0 <= i < |s| :: '0' <= s[i] <= '9'
  {
    if s == "" then 0 else 10 * ParseDigits(s[..|s| - 1]) + (s[|s| - 1] as int - '0' as int)
  }

  function AsProcessId(raw: Option<Json>): Option<int> {
    match raw
    case Some(Int(n)) => Some(n)
    case Some(String(s)) => if IsDigits(s) then Some(ParseDigits(s)) else None
    case _ => None
  }

  const ID_KEYS: seq<string> := ["connector_attempt_id", "process_id", "attempt_id"]

  /** The first of the three keys that holds a number or a string of digits. */
  method ProcessIdFromDownload(payload: Json) returns (id: Option<int>)
    ensures id.None? <==> forall k :: 0 <= k < |ID_KEYS| ==> AsProcessId(Field(payload, ID_KEYS[k])).None?
    ensures id.Some? ==> exists k :: FirstId(payload, k, id)
  {
    for i := 0 to |ID_KEYS|
      invariant forall k :: 0 <= k < i ==> AsProcessId(Field(payload, ID_KEYS[k])).None?
    {
      var candidate := AsProcessId(Field(payload, ID_KEYS[i]));
      if candidate.Some? {
        assert FirstId(payload, i, candidate);
        return candidate;
      }
    }
    id := None;
  }

  ghost predicate FirstId(payload: Json, k: int, id: Option<int>) {
    && 0 <= k < 3
    && AsProcessId(Field(payload, ["connector_attempt_id", "process_id", "attempt_id"][k])) == id
    && forall j :: 0 <= j < k ==> AsProcessId(Field(payload, ID_KEYS[j])).None?
  }

  /** A number in decimal digits. */
  function Decimal(n: nat): string {
    (if n < 10 then "" else Decimal(n / 10)) + [('0' as int + n % 10) as char]
  }

  lemma DigitAppended(front: string, d: nat)
    requires d < 10 && forall i | 0 <= i < |front| :: '0' <= front[i] <= '9'
    ensures var s := front + [('0' as int + d) as char]; IsDigits(s) && ParseDigits(s) == 10 * ParseDigits(front) + d
  {
    var s := front + [('0' as int + d) as char];
    assert s[..|s| - 1] == front;
  }

  lemma {:induction false} DecimalReads(n: nat)
    ensures IsDigits(Decimal(n)) && ParseDigits(Decimal(n)) == n
  {
    if n < 10 {
      DigitAppended("", n);
    } else {
      DecimalReads(n / 10);
      DigitAppended(Decimal(n / 10), n % 10);
    }
  }

  /** An id is a number or its digits; a boolean, any other text and anything else is none. */
  lemma IdsRead(n: nat, b: bool, s: string, r: real)
    ensures AsProcessId(Some(Int(n))) == AsProcessId(Some(String(Decimal(n)))) == Some(n)
    ensures AsProcessId(None) == AsProcessId(Some(Null)) == None
    ensures AsProcessId(Some(Bool(b))) == AsProcessId(Some(Real(r))) == None
    ensures (s == "" || exists i :: 0 <= i < |s| && !('0' <= s[i] <= '9')) ==> AsProcessId(Some(String(s))) == None
  {
    DecimalReads(n);
  }

  /** The integers of a list, in order; booleans and everything else are skipped. */
  function Ints(items: seq<Json>): seq<int> {
    if items == [] then []
    else Ints(items[..|items| - 1]) + if items[|items| - 1].Int? then [items[|items| - 1].n] else []
  }

  function LandIds(payload: Json): seq<int> {
    match Field(payload, "land_attempt_ids")
    case Some(List(items)) => Ints(items)
    case _ => []
  }

  method LandAttemptIdsFromDownload(payload: Json) returns (ids: seq<int>)
    ensures ids == LandIds(payload)
  {
    ids := [];
    match Field(payload, "land_attempt_ids") {
      case Some(List(items)) =>
        for i := 0 to |items|
          invariant ids == Ints(items[..i])
        {
          assert items[..i + 1][..i] == items[..i];
          if items[i].Int? {
            ids := ids + [items[i].n];
          }
        }
        assert items[..|items|] == items;
      case _ =>
    }
  }

  /** Reading a list in two parts gives the ids of the parts, so order and repetition are kept. */
  lemma {:induction false} IntsOfParts(a: seq<Json>, b: seq<Json>)
    ensures Ints(a + b) == Ints(a) + Ints(b)
  {
    if b == [] {
      assert a + b == a;
    } else {
      assert (a + b)[..|a + b| - 1] == a + b[..|b| - 1];
      IntsOfParts(a, b[..|b| - 1]);
    }
  }

  lemma IntsOfOne(item: Json)
    ensures Ints([item]) == match item
      case Int(n) => [n]
      case Null => [] case Bool(_) => [] case Real(_) => [] case String(_) => [] case List(_) => [] case Object(_) => []
  {
    assert [item][..0] == [];
  }

  lemma {:induction false} IntsOfIds(ids: seq<int>)
    ensures Ints(seq(|ids|, i requires 0 <= i < |ids| => Int(ids[i]))) == ids
  {
    if ids != [] {
      var n := |ids| - 1;
      IntsOfIds(ids[..n]);
      assert seq(|ids|, i requires 0 <= i < |ids| => Int(ids[i]))[..n]
          == seq(n, i requires 0 <= i < n => Int(ids[..n][i]));
    }
  }

  const WHITESPACE: seq<char> := [' ', '\t', '\n', '\r', '\U{0B}', '\U{0C}']

  predicate IsBlank(s: string) {
    forall i | 0 <= i < |s| :: s[i] in WHITESPACE
  }

  function BeforeColon(s: string): string {
    if s == "" || s[0] == ':' then "" else [s[0]] + BeforeColon(s[1..])
  }

  predicate IsFileScheme(s: string) {
    |s| == 4 && s[0] in "fF" && s[1] in "iI" && s[2] in "lL" && s[3] in "eE"
  }

  /** The archive is where the next worker can read it: a location is given, and it is not a local file. */
  predicate Landable(payload: Json) {
    match Field(payload, "gcs_uri")
    case Some(String(uri)) => !IsBlank(uri) && !IsFileScheme(BeforeColon(uri))
    case _ => false
  }

  /** With a colon, the scheme decides; without one, the whole text is taken for the scheme. */
  lemma {:induction false} SchemeIsRead(scheme: string, rest: string)
    requires ':' !in scheme
    ensures BeforeColon(scheme + ":" + rest) == scheme && BeforeColon(scheme) == scheme
  {
    var uri := scheme + ":" + rest;
    if scheme != "" {
      assert uri[1..] == scheme[1..] + ":" + rest;
      SchemeIsRead(scheme[1..], rest);
    }
  }

  function AsciiLower(c: char): char {
    if 'A' <= c <= 'Z' then (c as int + 32) as char else c
  }

  /** The text is "file" in any case. */
  predicate SaysFile(s: string) {
    |s| == 4 && forall i | 0 <= i < 4 :: AsciiLower(s[i]) == "file"[i]
  }

  lemma FileSchemes(s: string)
    ensures IsFileScheme(s) <==> SaysFile(s)
  {
    assert "file"[0] == 'f' && "file"[1] == 'i' && "file"[2] == 'l' && "file"[3] == 'e';
    if |s| == 4 {
      assert AsciiLower(s[0]) == 'f' <==> s[0] in "fF";
      assert AsciiLower(s[1]) == 'i' <==> s[1] in "iI";
      assert AsciiLower(s[2]) == 'l' <==> s[2] in "lL";
      assert AsciiLower(s[3]) == 'e' <==> s[3] in "eE";
    }
  }

  /** A location is refused exactly when it is blank or what stands before its first colon is "file" in any case. */
  lemma LandableExactly(scheme: string, rest: string, others: map<string, Json>)
    requires ':' !in scheme
    ensures Landable(Object(others["gcs_uri" := String(scheme + ":" + rest)])) <==> !SaysFile(scheme)
    ensures Landable(Object(others["gcs_uri" := String(scheme)])) <==> !IsBlank(scheme) && !SaysFile(scheme)
  {
    SchemeIsRead(scheme, rest);
    FileSchemes(scheme);
    assert (scheme + ":" + rest)[|scheme|] == ':';
  }

  predicate WorkerStatusIs(payload: Json, status: string) {
    Field(payload, "status") == Some(String(status))
  }

  // ---- the plan and the checks ---------------------------------------------------------------

  function Lands(ids: seq<int>): (posts: seq<Post>)
    ensures |posts| == |ids| && forall i :: 0 <= i < |ids| ==> posts[i] == Land(ids[i])
  {
    seq(|ids|, i requires 0 <= i < |ids| => Land(ids[i]))
  }

  function Plan(ids: seq<int>): seq<Post> {
    [Download] + Lands(ids) + [Promote(PROMOTE_LIMIT), Dispatch(DISPATCH_LIMIT, true), EnsureDrain]
  }

  predicate Passes(post: Post, reply: Reply) {
    && reply.code == 200
    && match post
       case Download => Landable(reply.payload) && LandIds(reply.payload) != []
       case Land(_) => WorkerStatusIs(reply.payload, "ok")
       case Promote(_) => !WorkerStatusIs(reply.payload, "idle")
       case Dispatch(_, _) => !WorkerStatusIs(reply.payload, "idle")
       case EnsureDrain => true
  }

  ghost predicate AllPass(posts: seq<Post>, replies: nat -> Reply) {
    forall k :: 0 <= k < |posts| ==> Passes(posts[k], replies(k))
  }

  /** The posts follow the plan, all but possibly the last passed, and they stop at the plan's end or at a failure. */
  ghost predicate Conversation(posts: seq<Post>, replies: nat -> Reply) {
    var plan := Plan(LandIds(replies(0).payload));
    && 1 <= |posts|
    && posts <= plan
    && AllPass(posts[..|posts| - 1], replies)
    && (posts == plan || !Passes(posts[|posts| - 1], replies(|posts| - 1)))
  }

  // ---- the code -------------------------------------------------------------------------------

  method LandBoundAttempts(replies: nat -> Reply, sofar: seq<Post>, ids: seq<int>)
    returns (drained: bool, posts: seq<Post>)
    ensures sofar <= posts <= sofar + Lands(ids)
    ensures drained ==> ids != [] && posts == sofar + Lands(ids)
    ensures forall k :: |sofar| <= k < |posts| - (if drained then 0 else 1) ==> Passes(posts[k], replies(k))
    ensures !drained ==> ids == [] || (|sofar| < |posts| && !Passes(posts[|posts| - 1], replies(|posts| - 1)))
  {
    posts := sofar;
    if ids == [] {
      return false, posts;
    }
    for i := 0 to |ids|
      invariant posts == sofar + Lands(ids)[..i]
      invariant forall k :: |sofar| <= k < |posts| ==> Passes(posts[k], replies(k))
    {
      var reply := replies(|posts|);
      posts := posts + [Land(ids[i])];
      assert Lands(ids)[..i + 1] == Lands(ids)[..i] + [Land(ids[i])];
      if reply.code != 200 {
        return false, posts;
      }
      if !WorkerStatusIs(reply.payload, "ok") {
        return false, posts;
      }
    }
    assert Lands(ids)[..|ids|] == Lands(ids);
    drained := true;
  }

  method ProxyOnceMustWork(replies: nat -> Reply, sofar: seq<Post>, post: Post) returns (worked: bool, posts: seq<Post>)
    requires post.Promote? || post.Dispatch?
    ensures posts == sofar + [post] && (worked <==> Passes(post, replies(|sofar|)))
  {
    var reply := replies(|sofar|);
    posts := sofar + [post];
    if reply.code != 200 {
      return false, posts;
    }
    worked := !WorkerStatusIs(reply.payload, "idle");
  }

  /** The posts of the plan that come before a step. */
  function Before(ids: seq<int>, step: nat): seq<Post> {
    match step
    case 0 => []
    case 1 => [Download]
    case 2 => [Download] + Lands(ids)
    case 3 => [Download] + Lands(ids) + [Promote(PROMOTE_LIMIT)]
    case 4 => [Download] + Lands(ids) + [Promote(PROMOTE_LIMIT), Dispatch(DISPATCH_LIMIT, true)]
    case _ => Plan(ids)
  }

  lemma Stopped(ids: seq<int>, before: seq<Post>, post: Post, replies: nat -> Reply)
    requires ids == LandIds(replies(0).payload) && before + [post] <= Plan(ids)
    requires AllPass(before, replies) && !Passes(post, replies(|before|))
    ensures Conversation(before + [post], replies) && !AllPass(before + [post], replies)
  {
    var posts := before + [post];
    assert posts[..|posts| - 1] == before;
    assert !Passes(posts[|before|], replies(|before|));
  }

  lemma PassedOn(before: seq<Post>, post: Post, replies: nat -> Reply)
    requires AllPass(before, replies) && Passes(post, replies(|before|))
    ensures AllPass(before + [post], replies)
  {
  }

  lemma Landed(ids: seq<int>, replies: nat -> Reply)
    requires Passes(Download, replies(0))
    requires forall k :: 1 <= k <= |ids| ==> Passes(([Download] + Lands(ids))[k], replies(k))
    ensures AllPass([Download] + Lands(ids), replies)
  {
  }

  lemma PlanParts(ids: seq<int>)
    ensures Before(ids, 2) + [Promote(PROMOTE_LIMIT)] == Before(ids, 3) <= Plan(ids)
    ensures Before(ids, 3) + [Dispatch(DISPATCH_LIMIT, true)] == Before(ids, 4) <= Plan(ids)
    ensures Before(ids, 4) + [EnsureDrain] == Plan(ids)
    ensures [Download] <= Plan(ids)
  {
  }

  method DownloadArchive(replies: nat -> Reply) returns (landable: bool, processId: Option<int>, ids: seq<int>)
    ensures landable <==> replies(0).code == 200 && Landable(replies(0).payload)
    ensures landable ==> ids == LandIds(replies(0).payload)
    ensures processId.Some? ==> replies(0).code == 200 && exists k :: FirstId(replies(0).payload, k, processId)
  {
    var reply := replies(0);
    if reply.code != 200 {
      return false, None, [];
    }
    processId := ProcessIdFromDownload(reply.payload);
    if !Landable(reply.payload) {
      return false, processId, [];
    }
    landable := true;
    ids := LandAttemptIdsFromDownload(reply.payload);
  }

  /** Posts one step of the run after the download and says whether to go on. */
  method PostStep(replies: nat -> Reply, i: nat, sofar: seq<Post>, ids: seq<int>)
    returns (passed: bool, posts: seq<Post>)
    requires 1 <= i < 5 && sofar == Before(ids, i)
    requires ids == LandIds(replies(0).payload) && replies(0).code == 200 && Landable(replies(0).payload)
    requires i > 1 ==> AllPass(sofar, replies)
    ensures passed ==> posts == Before(ids, i + 1) && AllPass(posts, replies)
    ensures !passed ==> Conversation(posts, replies) && !AllPass(posts, replies)
  {
    PlanParts(ids);
    var post;
    match STEPS[i] {
      case LandStep =>
        passed, posts := LandBoundAttempts(replies, sofar, ids);
        if passed {
          Landed(ids, replies);
        } else {
          LandStopped(ids, posts, replies);
        }
        return;
      case PromoteStep =>
        post := Promote(PROMOTE_LIMIT);
        passed, posts := ProxyOnceMustWork(replies, sofar, post);
      case DispatchStep =>
        post := Dispatch(DISPATCH_LIMIT, true);
        passed, posts := ProxyOnceMustWork(replies, sofar, post);
      case DrainStep =>
        post := EnsureDrain;
        passed := replies(|sofar|).code == 200;
        posts := sofar + [post];
    }
    if passed {
      PassedOn(sofar, post, replies);
    } else {
      Stopped(ids, sofar, post, replies);
    }
  }

  /** The run is ok exactly when the whole plan was posted and every reply passed. */
  method RunConfirmSteps(replies: nat -> Reply) returns (ok: bool, processId: Option<int>, posts: seq<Post>)
    ensures Conversation(posts, replies)
    ensures ok <==> posts == Plan(LandIds(replies(0).payload)) && AllPass(posts, replies)
    ensures processId.Some? ==> replies(0).code == 200 && exists k :: FirstId(replies(0).payload, k, processId)
  {
    var landable, landAttemptIds;
    landable, processId, landAttemptIds := DownloadArchive(replies);
    posts := [Download];
    if !landable {
      PlanParts(LandIds(replies(0).payload));
      Stopped(LandIds(replies(0).payload), [], Download, replies);
      return false, processId, posts;
    }
    for i := 1 to |STEPS|
      invariant posts == Before(landAttemptIds, i)
      invariant i > 1 ==> AllPass(posts, replies)
    {
      var passed;
      passed, posts := PostStep(replies, i, posts, landAttemptIds);
      if !passed {
        return false, processId, posts;
      }
    }
    Finished(landAttemptIds, replies);
    ok := true;
  }

  lemma Finished(ids: seq<int>, replies: nat -> Reply)
    requires ids == LandIds(replies(0).payload) && AllPass(Plan(ids), replies)
    ensures Conversation(Plan(ids), replies)
  {
  }

  lemma LandStopped(ids: seq<int>, posts: seq<Post>, replies: nat -> Reply)
    requires ids == LandIds(replies(0).payload) && replies(0).code == 200 && Landable(replies(0).payload)
    requires [Download] <= posts <= [Download] + Lands(ids)
    requires forall k :: 1 <= k < |posts| - 1 ==> Passes(posts[k], replies(k))
    requires ids == [] || (1 < |posts| && !Passes(posts[|posts| - 1], replies(|posts| - 1)))
    ensures Conversation(posts, replies) && !AllPass(posts, replies)
  {
  }

  /** The replies determine the posts: two conversations with the same worker are the same. */
  lemma ConversationIsUnique(a: seq<Post>, b: seq<Post>, replies: nat -> Reply)
    requires Conversation(a, replies) && Conversation(b, replies)
    ensures a == b
  {
    var plan := Plan(LandIds(replies(0).payload));
    assert a == plan[..|a|] && b == plan[..|b|];
  }

  lemma PlanAt(ids: seq<int>, k: nat)
    requires k < |Plan(ids)|
    ensures Plan(ids)[k].Promote? ==> k == 1 + |ids|
    ensures Plan(ids)[k].Land? ==> 1 <= k <= |ids|
    ensures 1 <= k <= |ids| ==> Plan(ids)[k] == Land(ids[k - 1])
  {
  }

  /** Nothing is promoted before every downloaded attempt has landed, and no attempt lands that was not downloaded. */
  lemma PromotedAfterLanding(posts: seq<Post>, replies: nat -> Reply, k: nat)
    requires Conversation(posts, replies) && k < |posts|
    ensures
      var ids := LandIds(replies(0).payload);
      && (posts[k].Promote? ==> k == 1 + |ids| && forall i :: 1 <= i <= |ids| ==> LandedAt(posts, replies, ids, i))
      && (posts[k].Land? ==> 1 <= k <= |ids| && posts[k].id == ids[k - 1])
  {
    var ids := LandIds(replies(0).payload);
    assert posts[k] == Plan(ids)[k];
    PlanAt(ids, k);
    if posts[k].Promote? {
      forall i | 1 <= i <= |ids| ensures LandedAt(posts, replies, ids, i) {
        assert posts[i] == Plan(ids)[i];
        PlanAt(ids, i);
        assert posts[..|posts| - 1][i] == posts[i];
      }
    }
  }

  ghost predicate LandedAt(posts: seq<Post>, replies: nat -> Reply, ids: seq<int>, i: nat)
    requires 1 <= i <= |ids|
  {
    i < |posts| && posts[i] == Land(ids[i - 1]) && Passes(posts[i], replies(i))
  }

  /** What every worker has to answer for the run to succeed. */
  ghost predicate AllAnswered(replies: nat -> Reply, n: nat) {
    && replies(0).code == 200 && Landable(replies(0).payload) && n > 0
    && (forall k :: 1 <= k <= n ==> AnswersOk(replies(k)))
    && AnswersBusy(replies(n + 1)) && AnswersBusy(replies(n + 2))
    && replies(n + 3).code == 200
  }

  predicate AnswersOk(reply: Reply) {
    reply.code == 200 && Field(reply.payload, "status") == Some(String("ok"))
  }

  predicate AnswersBusy(reply: Reply) {
    reply.code == 200 && Field(reply.payload, "status") != Some(String("idle"))
  }

  /**
   The whole plan passes exactly when the download gives a readable archive and at least one id,
   each land answers ok, promote and dispatch do not answer idle, and the drain answers; and the
   posts are then the download, one land for each id, a promote of 5000, a dispatch of 50000 that
   drains all, and the drain.
   */
  lemma SucceedsExactly(posts: seq<Post>, replies: nat -> Reply)
    requires Conversation(posts, replies)
    ensures
      var ids := LandIds(replies(0).payload);
      var whole := [Download] + Lands(ids) + [Promote(5000), Dispatch(50_000, true), EnsureDrain];
      && posts <= whole
      && (posts == whole && AllPass(posts, replies) <==> AllAnswered(replies, |ids|))
  {
    var ids := LandIds(replies(0).payload);
    if AllAnswered(replies, |ids|) {
      WholePlanPasses(ids, replies);
      Finished(ids, replies);
      ConversationIsUnique(posts, Plan(ids), replies);
    }
    if posts == Plan(ids) && AllPass(posts, replies) {
      PassedPlanAnswered(ids, replies);
    }
  }

  lemma WholePlanPasses(ids: seq<int>, replies: nat -> Reply)
    requires ids == LandIds(replies(0).payload) && AllAnswered(replies, |ids|)
    ensures AllPass(Plan(ids), replies)
  {
    forall k | 0 <= k < |Plan(ids)| ensures Passes(Plan(ids)[k], replies(k)) {
      if 1 <= k <= |ids| {
        assert Plan(ids)[k] == Land(ids[k - 1]) && AnswersOk(replies(k));
      }
    }
  }

  lemma PassedPlanAnswered(ids: seq<int>, replies: nat -> Reply)
    requires ids == LandIds(replies(0).payload) && AllPass(Plan(ids), replies)
    ensures AllAnswered(replies, |ids|)
  {
    var plan, n := Plan(ids), |ids|;
    assert Passes(plan[0], replies(0)) && plan[0] == Download;
    forall k | 1 <= k <= n ensures AnswersOk(replies(k)) {
      assert Passes(plan[k], replies(k)) && plan[k] == Land(ids[k - 1]);
    }
    assert Passes(plan[n + 1], replies(n + 1)) && plan[n + 1].Promote?;
    assert Passes(plan[n + 2], replies(n + 2)) && plan[n + 2].Dispatch?;
    assert Passes(plan[n + 3], replies(n + 3)) && plan[n + 3].EnsureDrain?;
  }
}
