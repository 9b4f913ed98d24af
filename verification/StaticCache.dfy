/**
 The content cache of static file serving (`requestHandler`, `getContent`, `setContent`), as a state
 machine: any number of requests and the background compression interleave between their accesses to
 the shared map, whose keys are composed of a "gz:" prefix, a hash and a URL path.
 */
module StaticCache {
  import opened Text

  /**
   The files by URL path, the replacer a hash stands for, replacers used without a hash, and the
   compressor. `gzip` tells whether compressed content is offered at all.
   */
  datatype World = World(
    files: map<string, string>, byHash: (string, string) -> string, once: (nat, string) -> string,
    compress: string -> string, gzip: bool)

  /** What the replacer function answered for a request: nothing, a replacer without hash, or one with a hash. */
  datatype Replacing = Untouched | Uncached(replacer: nat) | Hashed(hash: string)

  datatype Request = Request(url: string, acceptsGzip: bool, replacing: Replacing)

  datatype Body = Plain(content: string) | Gzipped(data: string) | Failed

  /** A hash that keeps composed keys apart from those of all other such hashes. */
  predicate CleanHash(h: string) { h != "" && '/' !in h && h != "*" && !("gz:" <= h) }

  predicate IsUrl(url: string) { url != "" && url[0] == '/' }

  /** The hashes a program uses are among `hashes`, and it asks for URL paths. */
  ghost predicate Fair(r: Request, hashes: iset<string>) {
    IsUrl(r.url) && (r.replacing.Hashed? ==> r.replacing.hash in hashes)
  }

  predicate UsesGzip(w: World, r: Request) { w.gzip && r.acceptsGzip }

  /** The content a request asks for, computed anew. */
  function Wanted(w: World, r: Request): Option<string> {
    if r.url !in w.files then None
    else
      var file := w.files[r.url];
      Some(match r.replacing
           case Untouched => file
           case Uncached(x) => w.once(x, file)
           case Hashed(h) => w.byHash(h, file))
  }

  /** The replacer of the hash `g` leaves the file at `u` alone, and the one of the hash `h` does not. */
  predicate Differs(w: World, u: string, g: string, h: string) {
    u in w.files && w.byHash(g, w.files[u]) == w.files[u] != w.byHash(h, w.files[u])
  }

  /** A file that one hashed replacer leaves alone is left alone by all. */
  ghost predicate Uniform(w: World, hashes: iset<string>) {
    forall u, g, h :: IsUrl(u) && g in hashes && h in hashes ==> !Differs(w, u, g, h)
  }

  // ----- the handler -----------------------------------------------------------------------------------

  /** Where a request is between two accesses to the cache. */
  datatype Pc =
    | Arrived
    | LookHashed                              // the key without hash was not cached
    | Replace                                 // nothing was cached
    | Keep(key: string, content: string)      // about to store the content
    | KeepGzip(key: string, content: string)  // about to store it compressed
    | Fetch(key: string, content: string)     // about to read the compressed content back
    | Sent(body: Body)

  datatype Job = Job(request: Request, pc: Pc)

  datatype State = State(cache: map<string, string>, jobs: map<nat, Job>)

  function Prefix(w: World, r: Request): string { if UsesGzip(w, r) then "gz:" else "" }

  function FromCache(w: World, r: Request, content: string): Pc {
    Sent(if UsesGzip(w, r) then Gzipped(content) else Plain(content))
  }

  /** Serving without a cached replacement: precompressed content if wanted and there, else the file itself. */
  function Direct(w: World, cache: map<string, string>, r: Request): Pc {
    if UsesGzip(w, r) && "gz:*" + r.url in cache then Sent(Gzipped(cache["gz:*" + r.url]))
    else Sent(match Wanted(w, r.(replacing := Untouched)) case None => Failed case Some(c) => Plain(c))
  }

  /** `replaceContent` and what is done with its result. */
  function Replaced(w: World, r: Request): Pc {
    match Wanted(w, r)
    case None => Sent(Failed)
    case Some(content) =>
      match r.replacing
      case Hashed(h) => Keep(if content != w.files[r.url] then h + r.url else r.url, content)
      case _ => Sent(Plain(content))
  }

  /** The next position of a request. */
  function NextPc(w: World, cache: map<string, string>, r: Request, pc: Pc): Pc {
    match pc
    case Arrived =>
      (match r.replacing
       case Untouched => Direct(w, cache, r)
       case Uncached(_) => Replace
       case Hashed(_) =>
         var key := Prefix(w, r) + r.url;
         if key in cache then FromCache(w, r, cache[key]) else LookHashed)
    case LookHashed =>
      (match r.replacing
       case Hashed(h) =>
         var key := Prefix(w, r) + h + r.url;
         if key in cache then FromCache(w, r, cache[key]) else Replace
       case _ => Replace)
    case Replace => Replaced(w, r)
    case Keep(key, content) => if w.gzip then KeepGzip(key, content) else Sent(Plain(content))
    case KeepGzip(key, content) => if UsesGzip(w, r) then Fetch(key, content) else Sent(Plain(content))
    case Fetch(key, content) =>
      Sent(if "gz:" + key in cache then Gzipped(cache["gz:" + key]) else Plain(content))
    case Sent(_) => pc
  }

  function NextCache(w: World, cache: map<string, string>, pc: Pc): map<string, string> {
    match pc
    case Keep(key, content) => cache[key := content]
    case KeepGzip(key, content) => cache["gz:" + key := w.compress(content)]
    case _ => cache
  }

  datatype Event = Arrive(id: nat, request: Request) | Advance(id: nat) | Precompress(url: string)

  predicate Step(w: World, s: State, e: Event, s': State) {
    match e
    case Arrive(id, r) => id !in s.jobs && s' == s.(jobs := s.jobs[id := Job(r, Arrived)])
    case Advance(id) =>
      && id in s.jobs
      && var j := s.jobs[id];
         s' == State(NextCache(w, s.cache, j.pc), s.jobs[id := j.(pc := NextPc(w, s.cache, j.request, j.pc))])
    case Precompress(u) =>
      w.gzip && u in w.files && IsUrl(u) && s' == s.(cache := s.cache["gz:*" + u := w.compress(w.files[u])])
  }

  ghost predicate Next(w: World, s: State, s': State) { exists e :: Step(w, s, e, s') }

  ghost predicate IsRun(w: World, run: seq<State>) {
    run != [] && run[0] == State(map[], map[]) && forall i :: 0 <= i < |run| - 1 ==> Next(w, run[i], run[i + 1])
  }

  ghost predicate FairJobs(s: State, hashes: iset<string>) {
    forall id :: id in s.jobs ==> Fair(s.jobs[id].request, hashes)
  }

  ghost predicate IsFairRun(w: World, run: seq<State>, hashes: iset<string>) {
    IsRun(w, run) && forall i :: 0 <= i < |run| ==> FairJobs(run[i], hashes)
  }

  // ----- keys ---------------------------------------------------------------------------------------------

  /** A key in its parts: compressed or not, and the hash ("" for none, "*" for precompressed files). */
  datatype Key = Key(gz: bool, hash: string, url: string)

  function Print(k: Key): string { (if k.gz then "gz:" else "") + k.hash + k.url }

  ghost predicate GoodKey(k: Key, hashes: iset<string>) {
    IsUrl(k.url) && (k.hash == "" || k.hash in hashes || (k.hash == "*" && k.gz))
  }

  /** `a` goes on after `b` with a slash, so that a URL path after `b` may look like one after `a`. */
  predicate Extends(a: string, b: string) { |b| < |a| && b <= a && a[|b|] == '/' }

  /** A key stored under the hash `a` can be one read under the hash `b`, or without a hash if `b` is "". */
  predicate Collides(a: string, b: string) {
    Extends(a, b) || a == "gz:" + b || Extends(a, "gz:" + b) || Extends("gz:" + b, a)
  }

  /** A key stored under the hash `a` can be one of a precompressed file. */
  predicate CollidesWithFiles(a: string) {
    a == "*" || Extends(a, "*") || a == "gz:*" || Extends(a, "gz:*")
  }

  /** No two of the hashes collide, and none with the keys used without a hash. */
  ghost predicate KeptApart(hashes: iset<string>) {
    && "" !in hashes
    && (forall a, b :: a in hashes && b in hashes ==> !Collides(a, b))
    && (forall a :: a in hashes ==> !Collides(a, "") && !CollidesWithFiles(a))
  }

  lemma {:induction false} SameOrExtends(a: string, u: string, b: string, v: string)
    requires IsUrl(u) && IsUrl(v) && a + u == b + v
    ensures (a == b && u == v) || Extends(a, b) || Extends(b, a)
  {
    var x := a + u;
    assert x[..|a|] == a && x[|a|..] == u && x[|a|] == '/';
    assert x[..|b|] == b && x[|b|..] == v && x[|b|] == '/';
    assert |a| < |b| ==> b[|a|] == x[|a|] && b[..|a|] == x[..|b|][..|a|] == a;
    assert |b| < |a| ==> a[|b|] == x[|b|] && a[..|b|] == x[..|a|][..|b|] == b;
  }

  lemma {:induction false} SameHead(a: string, u: string, b: string, v: string)
    requires '/' !in a && '/' !in b && IsUrl(u) && IsUrl(v) && a + u == b + v
    ensures a == b && u == v
  {
    SameOrExtends(a, u, b, v);
  }

  lemma {:induction false} AfterGz(a: string, b: string)
    ensures "gz:" + a == "gz:" + b ==> a == b
    ensures Extends("gz:" + a, "gz:" + b) ==> Extends(a, b)
  {
    assert ("gz:" + a)[3..] == a && ("gz:" + b)[3..] == b;
    if Extends("gz:" + a, "gz:" + b) {
      assert ("gz:" + a)[..3 + |b|] == "gz:" + b;
      assert a[..|b|] == ("gz:" + a)[..3 + |b|][3..] == b;
      assert a[|b|] == ("gz:" + a)[3 + |b|];
    }
  }

  /** Composed keys never collide as long as their hashes do not. */
  lemma {:induction false} KeysApart(a: Key, b: Key, hashes: iset<string>)
    requires KeptApart(hashes) && GoodKey(a, hashes) && GoodKey(b, hashes) && Print(a) == Print(b)
    ensures a == b
  {
    if a.gz && b.gz {
      assert Print(a) == "gz:" + a.hash + a.url && Print(b) == "gz:" + b.hash + b.url;
      SameOrExtends("gz:" + a.hash, a.url, "gz:" + b.hash, b.url);
      AfterGz(a.hash, b.hash);
      AfterGz(b.hash, a.hash);
      HashesApart(a.hash, b.hash, hashes);
      HashesApart(b.hash, a.hash, hashes);
    } else if !a.gz && !b.gz {
      assert Print(a) == a.hash + a.url && Print(b) == b.hash + b.url;
      SameOrExtends(a.hash, a.url, b.hash, b.url);
    } else if a.gz {
      GzApart(a, b, hashes);
    } else {
      GzApart(b, a, hashes);
    }
  }

  lemma {:induction false} HashesApart(a: string, b: string, hashes: iset<string>)
    requires KeptApart(hashes) && (a == "" || a == "*" || a in hashes) && (b == "" || b == "*" || b in hashes)
    ensures !Extends(a, b)
  {
    if a == "*" && b != "" { assert |a| <= |b|; }
  }

  lemma {:induction false} GzApart(a: Key, b: Key, hashes: iset<string>)
    requires KeptApart(hashes) && GoodKey(a, hashes) && GoodKey(b, hashes) && a.gz && !b.gz
    ensures Print(a) != Print(b)
  {
    var head := "gz:" + a.hash;
    assert head[0] == 'g' && '/' !in "gz:*" && (a.hash == "*" ==> head == "gz:*");
    assert Print(a) == head + a.url && Print(b) == b.hash + b.url;
    if Print(a) == Print(b) { SameOrExtends(head, a.url, b.hash, b.url); }
  }

  /**
   For a hash without a slash, being clean is exactly what keeps its keys apart from those of
   precompressed files and of compressed content under any other hash, or none.
   */
  lemma {:induction false} CleanIffApart(h: string, url: string)
    requires h != "" && '/' !in h && IsUrl(url)
    ensures CleanHash(h) <==>
      && Print(Key(true, h, url)) != "gz:*" + url
      && forall g :: '/' !in g ==> Print(Key(true, g, url)) != Print(Key(false, h, url))
  {
    if "gz:" <= h {
      assert h == "gz:" + h[3..] && '/' !in h[3..];
      assert Print(Key(true, h[3..], url)) == Print(Key(false, h, url));
    }
    if Print(Key(true, h, url)) == "gz:*" + url {
      SameHead("gz:" + h, url, "gz:*", url);
      assert ("gz:" + h)[3..] == "gz:*"[3..] == "*";
    }
    forall g | '/' !in g && Print(Key(true, g, url)) == Print(Key(false, h, url))
      ensures "gz:" <= h
    {
      assert "" + h == h;
      SameHead("gz:" + g, url, h, url);
    }
  }

  /** The content that belongs under a key. */
  function Meant(w: World, k: Key): Option<string> {
    if k.url !in w.files then None
    else
      var file := w.files[k.url];
      var content := if k.hash == "" || k.hash == "*" then file else w.byHash(k.hash, file);
      Some(if k.gz then w.compress(content) else content)
  }

  /**
   What is cached under `key` is right: it is a composed key, and content kept without a hash is the same for
   every hash.
   */
  ghost predicate RightAt(w: World, key: string, content: string, hashes: iset<string>) {
    exists k :: RightFor(w, key, content, k, hashes)
  }

  ghost predicate RightFor(w: World, key: string, content: string, k: Key, hashes: iset<string>) {
    && GoodKey(k, hashes) && key == Print(k) && Meant(w, k) == Some(content)
    && (k.hash == "" ==> forall h :: h in hashes ==> w.byHash(h, w.files[k.url]) == w.files[k.url])
  }

  ghost predicate RightCache(w: World, cache: map<string, string>, hashes: iset<string>) {
    forall key :: key in cache ==> RightAt(w, key, cache[key], hashes)
  }

  /** The bodies that answer a request: the content asked for, or its compressed form if that is accepted. */
  predicate Answers(w: World, r: Request, body: Body) {
    match Wanted(w, r)
    case None => body == Failed
    case Some(c) => body == Plain(c) || (UsesGzip(w, r) && body == Gzipped(w.compress(c)))
  }

  /** What a request carries between its steps. */
  ghost predicate RightPc(w: World, r: Request, pc: Pc, hashes: iset<string>) {
    match pc
    case Keep(key, content) => RightKept(w, r, key, content, hashes)
    case KeepGzip(key, content) => RightKept(w, r, key, content, hashes) && w.gzip
    case Fetch(key, content) => RightKept(w, r, key, content, hashes) && UsesGzip(w, r)
    case Sent(body) => Answers(w, r, body)
    case _ => true
  }

  ghost predicate RightKept(w: World, r: Request, key: string, content: string, hashes: iset<string>) {
    && r.replacing.Hashed? && Wanted(w, r) == Some(content)
    && var k := Key(false, if content != w.files[r.url] then r.replacing.hash else "", r.url);
       RightFor(w, key, content, k, hashes)
  }

  ghost predicate Inv(w: World, s: State, hashes: iset<string>) {
    && RightCache(w, s.cache, hashes)
    && forall id :: id in s.jobs ==> RightPc(w, s.jobs[id].request, s.jobs[id].pc, hashes)
  }

  /** Reading a composed key gives what is meant under it. */
  lemma {:induction false} ReadIsMeant(w: World, cache: map<string, string>, k: Key, hashes: iset<string>)
    requires KeptApart(hashes) && RightCache(w, cache, hashes) && GoodKey(k, hashes) && Print(k) in cache
    ensures RightFor(w, Print(k), cache[Print(k)], k, hashes)
  {
    assert RightAt(w, Print(k), cache[Print(k)], hashes);
    var k' :| RightFor(w, Print(k), cache[Print(k)], k', hashes);
    KeysApart(k, k', hashes);
  }

  lemma {:induction false} ArrivedIsRight(w: World, cache: map<string, string>, r: Request, hashes: iset<string>)
    requires KeptApart(hashes) && RightCache(w, cache, hashes) && Fair(r, hashes)
    ensures RightPc(w, r, NextPc(w, cache, r, Arrived), hashes)
  {
    match r.replacing
    case Untouched =>
      var k := Key(true, "*", r.url);
      assert Print(k) == "gz:*" + r.url;
      if Print(k) in cache { ReadIsMeant(w, cache, k, hashes); }
    case Uncached(_) =>
    case Hashed(h) =>
      var k := Key(UsesGzip(w, r), "", r.url);
      assert Print(k) == Prefix(w, r) + r.url;
      if Print(k) in cache { ReadIsMeant(w, cache, k, hashes); }
  }

  lemma {:induction false} LookIsRight(w: World, cache: map<string, string>, r: Request, hashes: iset<string>)
    requires KeptApart(hashes) && RightCache(w, cache, hashes) && Fair(r, hashes)
    ensures RightPc(w, r, NextPc(w, cache, r, LookHashed), hashes)
  {
    if r.replacing.Hashed? {
      var k := Key(UsesGzip(w, r), r.replacing.hash, r.url);
      assert Print(k) == Prefix(w, r) + r.replacing.hash + r.url;
      if Print(k) in cache { ReadIsMeant(w, cache, k, hashes); }
    }
  }

  lemma {:induction false} ReplacedIsRight(w: World, r: Request, hashes: iset<string>)
    requires KeptApart(hashes) && Uniform(w, hashes) && Fair(r, hashes)
    ensures RightPc(w, r, Replaced(w, r), hashes)
  {
    if r.replacing.Hashed? && r.url in w.files {
      var h, file := r.replacing.hash, w.files[r.url];
      var content := w.byHash(h, file);
      var k := Key(false, if content != file then h else "", r.url);
      assert Print(k) == (if content != file then h + r.url else r.url);
      assert content == file ==> forall g :: g in hashes ==> !Differs(w, r.url, h, g);
      assert RightFor(w, Print(k), content, k, hashes);
    }
  }

  lemma {:induction false} FetchIsRight(
    w: World, cache: map<string, string>, r: Request, key: string, content: string, hashes: iset<string>)
    requires KeptApart(hashes) && RightCache(w, cache, hashes) && Fair(r, hashes)
      && RightPc(w, r, Fetch(key, content), hashes)
    ensures RightPc(w, r, NextPc(w, cache, r, Fetch(key, content)), hashes)
  {
    var k := Key(false, if content != w.files[r.url] then r.replacing.hash else "", r.url);
    var gz := k.(gz := true);
    assert Print(gz) == "gz:" + key;
    if Print(gz) in cache { ReadIsMeant(w, cache, gz, hashes); }
  }

  /** A step of a request keeps what it carries right. */
  lemma {:induction false} PcStaysRight(w: World, cache: map<string, string>, r: Request, pc: Pc, hashes: iset<string>)
    requires KeptApart(hashes) && Uniform(w, hashes) && RightCache(w, cache, hashes) && Fair(r, hashes)
      && RightPc(w, r, pc, hashes)
    ensures RightPc(w, r, NextPc(w, cache, r, pc), hashes)
  {
    match pc
    case Arrived => ArrivedIsRight(w, cache, r, hashes);
    case LookHashed => LookIsRight(w, cache, r, hashes);
    case Replace => ReplacedIsRight(w, r, hashes);
    case Fetch(key, content) => FetchIsRight(w, cache, r, key, content, hashes);
    case _ =>
  }

  /** A store of a request keeps the cache right. */
  lemma {:induction false} CacheStaysRight(
    w: World, cache: map<string, string>, r: Request, pc: Pc, hashes: iset<string>)
    requires RightCache(w, cache, hashes) && RightPc(w, r, pc, hashes)
    ensures RightCache(w, NextCache(w, cache, pc), hashes)
  {
    if pc.Keep? || pc.KeepGzip? {
      var k := Key(false, if pc.content != w.files[r.url] then r.replacing.hash else "", r.url);
      assert RightFor(w, pc.key, pc.content, k, hashes);
      var gz := k.(gz := true);
      assert Print(gz) == "gz:" + pc.key;
      assert RightFor(w, Print(gz), w.compress(pc.content), gz, hashes);
      assert RightAt(w, pc.key, pc.content, hashes) && RightAt(w, "gz:" + pc.key, w.compress(pc.content), hashes);
    }
  }

  lemma {:induction false} StepKeepsInv(w: World, s: State, e: Event, s': State, hashes: iset<string>)
    requires KeptApart(hashes) && Uniform(w, hashes) && Inv(w, s, hashes) && FairJobs(s, hashes) && Step(w, s, e, s')
    ensures Inv(w, s', hashes)
  {
    match e
    case Arrive(id, r) =>
    case Advance(id) =>
      var j := s.jobs[id];
      PcStaysRight(w, s.cache, j.request, j.pc, hashes);
      CacheStaysRight(w, s.cache, j.request, j.pc, hashes);
    case Precompress(u) =>
      var k := Key(true, "*", u);
      assert Print(k) == "gz:*" + u;
      assert RightFor(w, Print(k), w.compress(w.files[u]), k, hashes);
      assert RightAt(w, "gz:*" + u, w.compress(w.files[u]), hashes);
  }

  lemma {:induction false} RunKeepsInv(w: World, run: seq<State>, i: nat, hashes: iset<string>)
    requires KeptApart(hashes) && Uniform(w, hashes) && IsFairRun(w, run, hashes) && i < |run|
    ensures Inv(w, run[i], hashes)
  {
    if i > 0 {
      RunKeepsInv(w, run, i - 1, hashes);
      assert Next(w, run[i - 1], run[i - 1 + 1]);
      var e :| Step(w, run[i - 1], e, run[i]);
      StepKeepsInv(w, run[i - 1], e, run[i], hashes);
    }
  }

  /**
   With hashes that keep apart and files that all hashed replacers change or none does, in every interleaving
   of requests and background compression each body sent is the content freshly computed for that request, or
   its compressed form when the client accepts it.
   */
  lemma {:induction false} BodiesAreFresh(w: World, run: seq<State>, i: nat, id: nat, hashes: iset<string>)
    requires KeptApart(hashes) && Uniform(w, hashes) && IsFairRun(w, run, hashes) && i < |run| && id in run[i].jobs
      && run[i].jobs[id].pc.Sent?
    ensures Answers(w, run[i].jobs[id].request, run[i].jobs[id].pc.body)
  {
    RunKeepsInv(w, run, i, hashes);
  }

  // ----- colliding hashes send wrong bodies ----------------------------------------------------------------

  ghost predicate SendsFresh(w: World, run: seq<State>) {
    forall i, id :: 0 <= i < |run| && id in run[i].jobs && run[i].jobs[id].pc.Sent? ==>
      Answers(w, run[i].jobs[id].request, run[i].jobs[id].pc.body)
  }

  /** With these files and replacers, each body ever sent is right. */
  ghost predicate FreshIn(w: World, hashes: iset<string>) {
    forall run :: IsFairRun(w, run, hashes) ==> SendsFresh(w, run)
  }

  /** With these hashes, each body ever sent is right for all files that every hashed replacer changes or none does. */
  ghost predicate FreshWhereUniform(hashes: iset<string>) {
    forall w :: Uniform(w, hashes) ==> FreshIn(w, hashes)
  }

  /** Files at `u` and `v`, and replacers that change every file, the one of the hash `a` in its own way. */
  function Trap(a: string, u: string, v: string): World {
    World(map[u := "1"][v := if u == v then "1" else "2"], (h, c) => if h == a then "A" + c else "B" + c,
          (x, c) => c, c => "z" + c, true)
  }

  function Writer(a: string, u: string): Request { Request(u, false, Hashed(a)) }

  /** What a request with hash `a` for `u` leaves in the cache. */
  function Left(a: string, u: string): map<string, string> {
    map[a + u := "A1"]["gz:" + (a + u) := "zA1"]
  }

  /** A request with hash `a` for `u`, and after it the request `r`. */
  function TrapRun(w: World, a: string, u: string, r: Request): seq<State> {
    var first, key, cache := Writer(a, u), a + u, Left(a, u);
    var done := map[0 := Job(first, Sent(Plain("A1")))];
    var looked := NextPc(w, cache, r, Arrived);
    [ State(map[], map[]),
      State(map[], map[0 := Job(first, Arrived)]),
      State(map[], map[0 := Job(first, LookHashed)]),
      State(map[], map[0 := Job(first, Replace)]),
      State(map[], map[0 := Job(first, Keep(key, "A1"))]),
      State(map[key := "A1"], map[0 := Job(first, KeepGzip(key, "A1"))]),
      State(cache, done),
      State(cache, done[1 := Job(r, Arrived)]),
      State(cache, done[1 := Job(r, looked)]),
      State(cache, done[1 := Job(r, NextPc(w, cache, r, looked))]) ]
  }

  lemma {:induction false} TrapLooks(a: string, u: string, v: string, r: Request)
    ensures var w := Trap(a, u, v); var run := TrapRun(w, a, u, r);
      forall i :: 0 <= i < 3 ==> Next(w, run[i], run[i + 1])
  {
    var w := Trap(a, u, v);
    var run := TrapRun(w, a, u, r);
    assert Step(w, run[0], Arrive(0, Writer(a, u)), run[1]);
    assert Step(w, run[1], Advance(0), run[2]);
    assert Step(w, run[2], Advance(0), run[3]);
  }

  lemma {:induction false} TrapReplaces(a: string, u: string, v: string)
    ensures Replaced(Trap(a, u, v), Writer(a, u)) == Keep(a + u, "A1") && Trap(a, u, v).compress("A1") == "zA1"
  {
    var w := Trap(a, u, v);
    assert w.files[u] == "1" && w.byHash(a, "1") == "A" + "1" == "A1" && w.compress("A1") == "z" + "A1" == "zA1";
    assert |"A1"| == 2;
  }

  lemma {:induction false} TrapWrites(a: string, u: string, v: string, r: Request)
    ensures var w := Trap(a, u, v); var run := TrapRun(w, a, u, r);
      forall i :: 3 <= i < 6 ==> Next(w, run[i], run[i + 1])
  {
    var w := Trap(a, u, v);
    var run := TrapRun(w, a, u, r);
    TrapReplaces(a, u, v);
    assert Step(w, run[3], Advance(0), run[4]);
    assert Step(w, run[4], Advance(0), run[5]);
    assert Step(w, run[5], Advance(0), run[6]);
  }

  lemma {:induction false} TrapReads(a: string, u: string, v: string, r: Request)
    ensures var w := Trap(a, u, v); var run := TrapRun(w, a, u, r);
      forall i :: 6 <= i < 9 ==> Next(w, run[i], run[i + 1])
  {
    var w := Trap(a, u, v);
    var run := TrapRun(w, a, u, r);
    assert Step(w, run[6], Arrive(1, r), run[7]);
    assert Step(w, run[7], Advance(1), run[8]);
    assert Step(w, run[8], Advance(1), run[9]);
  }

  /** How the second request ends. */
  function Ending(a: string, u: string, r: Request): Pc {
    var w, cache := Trap(a, u, r.url), Left(a, u);
    NextPc(w, cache, r, NextPc(w, cache, r, Arrived))
  }

  /** A second request that is sent a wrong body shows that the hashes are not safe. */
  lemma {:induction false} TrapCatches(a: string, u: string, r: Request, hashes: iset<string>)
    requires a in hashes && IsUrl(u) && Fair(r, hashes)
    requires Ending(a, u, r).Sent? && !Answers(Trap(a, u, r.url), r, Ending(a, u, r).body)
    ensures !FreshWhereUniform(hashes)
  {
    var w := Trap(a, u, r.url);
    var run := TrapRun(w, a, u, r);
    TrapLooks(a, u, r.url, r);
    TrapWrites(a, u, r.url, r);
    TrapReads(a, u, r.url, r);
    assert Uniform(w, hashes) by {
      forall x, g, h
        ensures !Differs(w, x, g, h)
      {
        if x in w.files { assert |w.byHash(g, w.files[x])| == |w.files[x]| + 1; }
      }
    }
    assert IsRun(w, run);
    assert IsFairRun(w, run, hashes);
    assert run[9].jobs[1] == Job(r, Ending(a, u, r));
    assert !SendsFresh(w, run);
  }

  /** The keys a request looks up. */
  predicate Hits(cache: map<string, string>, r: Request) {
    match r.replacing
    case Untouched => r.acceptsGzip && "gz:*" + r.url in cache
    case Uncached(_) => false
    case Hashed(h) => Prefix(Trap("", "", ""), r) + r.url in cache || Prefix(Trap("", "", ""), r) + h + r.url in cache
  }

  /** A request that finds what another one left is sent a wrong body. */
  lemma {:induction false} HitIsWrong(a: string, u: string, r: Request)
    requires Hits(Left(a, u), r) && (r.replacing.Hashed? ==> r.replacing.hash != a || r.url != u)
    ensures Ending(a, u, r).Sent? && !Answers(Trap(a, u, r.url), r, Ending(a, u, r).body)
  {
    var w, cache := Trap(a, u, r.url), Left(a, u);
    assert UsesGzip(w, r) == r.acceptsGzip;
    assert forall k :: k in cache ==> cache[k] == "A1" || cache[k] == "zA1";
    var c, file := Wanted(w, r).value, w.files[r.url];
    assert file[0] == (if u == r.url then '1' else '2') && "A1"[1] == '1';
    if r.replacing.Hashed? {
      var first := if r.replacing.hash == a then "A" else "B";
      assert c == first + file && c[0] == first[0] && c[1] == file[0];
      assert c[0] == 'B' || c[1] == '2';
    } else {
      assert |c| == 1;
    }
    assert c != "A1" && c[0] != 'z';
    assert ("z" + c)[1..] == c && "zA1"[1..] == "A1" && "A1"[0] == 'A';
  }

  /** A key the request looks up was left in the cache. */
  lemma {:induction false} ReaderIsMisled(a: string, u: string, r: Request, key: string, hashes: iset<string>)
    requires a in hashes && IsUrl(u) && Fair(r, hashes) && (key == a + u || key == "gz:" + (a + u))
    requires match r.replacing
      case Untouched => r.acceptsGzip && key == "gz:*" + r.url
      case Uncached(_) => false
      case Hashed(h) =>
        var prefix := if r.acceptsGzip then "gz:" else "";
        (h != a || r.url != u) && (key == prefix + r.url || key == prefix + h + r.url)
    ensures !FreshWhereUniform(hashes)
  {
    assert key in Left(a, u);
    HitIsWrong(a, u, r);
    TrapCatches(a, u, r, hashes);
  }

  const FILE: string := "/f"

  /** What `a` has more than `b`. */
  function Tail(a: string, b: string): (s: string)
    requires Extends(a, b)
    ensures a == b + s && IsUrl(s)
  {
    a[|b|..]
  }

  lemma {:induction false} CollisionMisleads(a: string, b: string, hashes: iset<string>)
    requires a in hashes && b in hashes && Collides(a, b)
    ensures !FreshWhereUniform(hashes)
  {
    var gz := "gz:" + b;
    if Extends(a, b) {
      var v := Tail(a, b) + FILE;
      assert a + FILE == b + v && "" + b + v == b + v;
      ReaderIsMisled(a, FILE, Request(v, false, Hashed(b)), b + v, hashes);
    } else if a == gz {
      ReaderIsMisled(a, FILE, Request(FILE, true, Hashed(b)), a + FILE, hashes);
    } else if Extends(a, gz) {
      var v := Tail(a, gz) + FILE;
      assert a + FILE == gz + v;
      ReaderIsMisled(a, FILE, Request(v, true, Hashed(b)), gz + v, hashes);
    } else {
      var u := Tail(gz, a) + FILE;
      assert a + u == gz + FILE;
      ReaderIsMisled(a, u, Request(FILE, true, Hashed(b)), gz + FILE, hashes);
    }
  }

  lemma {:induction false} CollisionWithoutHash(a: string, hashes: iset<string>)
    requires a in hashes && Collides(a, "")
    ensures !FreshWhereUniform(hashes)
  {
    if Extends(a, "") {
      var v := a + FILE;
      assert "" + v == v;
      ReaderIsMisled(a, FILE, Request(v, false, Hashed(a)), v, hashes);
    } else if a == "gz:" {
      OwnGzIsMisled();
      TrapCatches("gz:", FILE, Request(FILE, true, Hashed("gz:")), hashes);
    } else {
      assert "gz:" + "" == "gz:" && '/' !in "gz:";
      var v := Tail(a, "gz:") + FILE;
      assert a + FILE == "gz:" + v;
      ReaderIsMisled(a, FILE, Request(v, true, Hashed(a)), "gz:" + v, hashes);
    }
  }

  /** With the hash "gz:", the plain content is found where the compressed one is looked for. */
  lemma {:induction false} OwnGzIsMisled()
    ensures var r := Request(FILE, true, Hashed("gz:")); var e := Ending("gz:", FILE, r);
      e.Sent? && !Answers(Trap("gz:", FILE, FILE), r, e.body)
  {
    var a, r := "gz:", Request(FILE, true, Hashed("gz:"));
    var w, cache := Trap(a, FILE, FILE), Left(a, FILE);
    assert |"gz:" + (a + FILE)| != |a + FILE|;
    assert cache["gz:" + FILE] == "A1";
    assert NextPc(w, cache, r, Arrived) == Sent(Gzipped("A1"));
    assert w.files[FILE] == "1" && w.byHash(a, "1") == "A" + "1" == "A1";
    assert "A1"[0] != ("z" + "A1")[0];
  }

  lemma {:induction false} CollisionWithFiles(a: string, hashes: iset<string>)
    requires a in hashes && CollidesWithFiles(a)
    ensures !FreshWhereUniform(hashes)
  {
    var all := "gz:*";
    if a == "*" {
      assert "gz:" + (a + FILE) == all + FILE;
      ReaderIsMisled(a, FILE, Request(FILE, true, Untouched), all + FILE, hashes);
    } else if Extends(a, "*") {
      var v := Tail(a, "*") + FILE;
      assert "gz:" + (a + FILE) == all + v;
      ReaderIsMisled(a, FILE, Request(v, true, Untouched), all + v, hashes);
    } else if a == all {
      ReaderIsMisled(a, FILE, Request(FILE, true, Untouched), all + FILE, hashes);
    } else {
      var v := Tail(a, all) + FILE;
      assert a + FILE == all + v;
      ReaderIsMisled(a, FILE, Request(v, true, Untouched), all + v, hashes);
    }
  }

  // ----- a file that only some replacers change ------------------------------------------------------------

  /** A request with hash `g` for a file it leaves alone, and after it one with hash `h`. */
  function StaleRun(w: World, u: string, g: string, h: string): seq<State>
    requires u in w.files
  {
    var file, first, second := w.files[u], Request(u, false, Hashed(g)), Request(u, false, Hashed(h));
    var kept, done := map[u := file], map[0 := Job(first, if w.gzip then KeepGzip(u, file) else Sent(Plain(file)))];
    [ State(map[], map[]),
      State(map[], map[0 := Job(first, Arrived)]),
      State(map[], map[0 := Job(first, LookHashed)]),
      State(map[], map[0 := Job(first, Replace)]),
      State(map[], map[0 := Job(first, Keep(u, file))]),
      State(kept, done),
      State(kept, done[1 := Job(second, Arrived)]),
      State(kept, done[1 := Job(second, Sent(Plain(file)))]) ]
  }

  lemma {:induction false} StaleRunIsRun(w: World, u: string, g: string, h: string)
    requires Differs(w, u, g, h)
    ensures IsRun(w, StaleRun(w, u, g, h))
  {
    var run := StaleRun(w, u, g, h);
    assert "" + u == u;
    assert Step(w, run[0], Arrive(0, Request(u, false, Hashed(g))), run[1]);
    assert Step(w, run[1], Advance(0), run[2]);
    assert Step(w, run[2], Advance(0), run[3]);
    assert Step(w, run[3], Advance(0), run[4]);
    assert Step(w, run[4], Advance(0), run[5]);
    assert Step(w, run[5], Arrive(1, Request(u, false, Hashed(h))), run[6]);
    assert Step(w, run[6], Advance(1), run[7]);
  }

  /** The file left alone by one replacer is cached for all hashes, and sent unreplaced to a request with another. */
  lemma {:induction false} StaleMisleads(w: World, u: string, g: string, h: string, hashes: iset<string>)
    requires IsUrl(u) && g in hashes && h in hashes && Differs(w, u, g, h)
    ensures IsFairRun(w, StaleRun(w, u, g, h), hashes) && !SendsFresh(w, StaleRun(w, u, g, h))
  {
    var run := StaleRun(w, u, g, h);
    StaleRunIsRun(w, u, g, h);
    assert run[7].jobs[1].pc == Sent(Plain(w.files[u]));
    assert !Answers(w, run[7].jobs[1].request, run[7].jobs[1].pc.body);
  }

  /**
   With hashes that keep apart, every body ever sent is right exactly when no file is left alone by one
   hashed replacer and changed by another, whatever else the files and replacers are.
   */
  lemma {:induction false} FreshIffUniform(w: World, hashes: iset<string>)
    requires KeptApart(hashes)
    ensures FreshIn(w, hashes) <==> Uniform(w, hashes)
  {
    if Uniform(w, hashes) {
      forall run | IsFairRun(w, run, hashes)
        ensures SendsFresh(w, run)
      {
        RunIsFresh(w, run, hashes);
      }
    } else {
      var u, g, h :| IsUrl(u) && g in hashes && h in hashes && Differs(w, u, g, h);
      StaleMisleads(w, u, g, h, hashes);
    }
  }

  /**
   The hashes keep apart exactly when, for all files and replacers, uniformity is what makes every body ever
   sent right; and exactly when uniformity is enough for that.
   */
  lemma {:induction false} FreshIffApart(hashes: iset<string>)
    requires "" !in hashes
    ensures FreshWhereUniform(hashes) <==> KeptApart(hashes)
    ensures (forall w :: FreshIn(w, hashes) <==> Uniform(w, hashes)) <==> KeptApart(hashes)
  {
    if KeptApart(hashes) {
      forall w
        ensures FreshIn(w, hashes) <==> Uniform(w, hashes)
      {
        FreshIffUniform(w, hashes);
      }
    } else if a, b :| a in hashes && b in hashes && Collides(a, b) {
      CollisionMisleads(a, b, hashes);
    } else {
      var a :| a in hashes && (Collides(a, "") || CollidesWithFiles(a));
      if Collides(a, "") { CollisionWithoutHash(a, hashes); } else { CollisionWithFiles(a, hashes); }
    }
  }

  lemma {:induction false} RunIsFresh(w: World, run: seq<State>, hashes: iset<string>)
    requires KeptApart(hashes) && Uniform(w, hashes) && IsFairRun(w, run, hashes)
    ensures SendsFresh(w, run)
  {
    forall i, id | 0 <= i < |run| && id in run[i].jobs && run[i].jobs[id].pc.Sent?
      ensures Answers(w, run[i].jobs[id].request, run[i].jobs[id].pc.body)
    {
      BodiesAreFresh(w, run, i, id, hashes);
    }
  }

  /** Clean hashes keep apart, so with them every body is right exactly when the files are uniform. */
  lemma {:induction false} CleanIsFresh(w: World)
    ensures FreshIn(w, iset h | CleanHash(h)) <==> Uniform(w, iset h | CleanHash(h))
  {
    var clean := iset h | CleanHash(h);
    forall a, b | CleanHash(a) && (CleanHash(b) || b == "")
      ensures !Collides(a, b)
    {
      assert '/' !in "gz:" + b;
      assert a == "gz:" + b ==> "gz:" <= a;
    }
    assert KeptApart(clean);
    FreshIffUniform(w, clean);
  }

  /** A hash that starts with "gz:" is not safe beside the hash it goes on with. */
  lemma {:induction false} GzHashMisleads(h: string)
    requires h != ""
    ensures !FreshWhereUniform(iset{h, "gz:" + h})
  {
    assert Collides("gz:" + h, h);
    FreshIffApart(iset{h, "gz:" + h});
  }

  // ----- why the hash "*" must not be used -----------------------------------------------------------------

  /** One file, changed by every replacer. */
  const ONE_FILE: World := World(map["/f" := "a"], (h, c) => "b", (x, c) => c, c => "z" + c, true)

  const STAR_REQUEST: Request := Request("/f", true, Hashed("*"))
  const FILE_REQUEST: Request := Request("/f", true, Untouched)

  /** The run of a request with hash "*" followed by a plain one. */
  function StarRun(): seq<State> {
    var kept := map["*/f" := "b"];
    var both := kept["gz:*/f" := "zb"];
    var star := map[0 := Job(STAR_REQUEST, Sent(Gzipped("zb")))];
    [ State(map[], map[]),
      State(map[], map[0 := Job(STAR_REQUEST, Arrived)]),
      State(map[], map[0 := Job(STAR_REQUEST, LookHashed)]),
      State(map[], map[0 := Job(STAR_REQUEST, Replace)]),
      State(map[], map[0 := Job(STAR_REQUEST, Keep("*/f", "b"))]),
      State(kept, map[0 := Job(STAR_REQUEST, KeepGzip("*/f", "b"))]),
      State(both, map[0 := Job(STAR_REQUEST, Fetch("*/f", "b"))]),
      State(both, star),
      State(both, star[1 := Job(FILE_REQUEST, Arrived)]),
      State(both, star[1 := Job(FILE_REQUEST, Sent(Gzipped("zb")))]) ]
  }

  /** With the hash "*", a client asking for the plain file is sent another client's replaced content. */
  lemma {:induction false} StarHashMisleads()
    ensures Uniform(ONE_FILE, iset{"*"}) && IsRun(ONE_FILE, StarRun())
    ensures var last := StarRun()[9];
      1 in last.jobs && last.jobs[1].pc.Sent? && !Answers(ONE_FILE, FILE_REQUEST, last.jobs[1].pc.body)
  {
    var w, run := ONE_FILE, StarRun();
    assert "*" + "/f" == "*/f" && "gz:" + "*/f" == "gz:*/f" && "gz:*" + "/f" == "gz:*/f" && "z" + "b" == "zb";
    assert "gz:" + "*" + "/f" == "gz:*/f";
    StarFirstSteps();
    StarLastSteps();
    assert Gzipped("z" + "a") != Gzipped("zb") by { assert ("z" + "a")[1] == 'a' && "zb"[1] == 'b'; }
  }

  lemma {:induction false} StarFirstSteps()
    ensures var run := StarRun(); forall i :: 0 <= i < 5 ==> Next(ONE_FILE, run[i], run[i + 1])
  {
    var w, run := ONE_FILE, StarRun();
    assert Step(w, run[0], Arrive(0, STAR_REQUEST), run[1]);
    assert Step(w, run[1], Advance(0), run[2]);
    assert Step(w, run[2], Advance(0), run[3]);
    assert "*" + "/f" == "*/f";
    assert Step(w, run[3], Advance(0), run[4]);
    assert Step(w, run[4], Advance(0), run[5]);
  }

  lemma {:induction false} StarLastSteps()
    ensures var run := StarRun(); forall i :: 5 <= i < 9 ==> Next(ONE_FILE, run[i], run[i + 1])
  {
    var w, run := ONE_FILE, StarRun();
    assert "gz:" + "*/f" == "gz:*/f" && "gz:*" + "/f" == "gz:*/f" && "z" + "b" == "zb";
    assert Step(w, run[5], Advance(0), run[6]);
    assert Step(w, run[6], Advance(0), run[7]);
    assert Step(w, run[7], Arrive(1, FILE_REQUEST), run[8]);
    assert Step(w, run[8], Advance(1), run[9]);
  }
}
