/**
 Headers that survive an error response (`SetAlways` and the capture/reset/apply sequence of
 `HandleError`), on a request context that is pooled and whose buffer of names and values is reused
 from request to request without being cleared.
 */
module AlwaysHeaders {

  /** Response headers: canonical name to the values set, first one first. */
  type Headers = map<string, seq<string>>

  /** How the HTTP library spells a header name. */
  type Canon = string -> string

  datatype Entry = Entry(name: string, value: string)

  /** The context: the whole buffer with whatever it held before, how much of it is in use, and the response headers. */
  datatype Ctx = Ctx(buffer: seq<Entry>, used: nat, headers: Headers)

  function SetHeader(hs: Headers, canon: Canon, key: string, value: string): Headers { hs[canon(key) := [value]] }

  function AddHeader(hs: Headers, canon: Canon, key: string, value: string): Headers {
    hs[canon(key) := (if canon(key) in hs then hs[canon(key)] else []) + [value]]
  }

  /** The first value of a header, "" when it is not set. */
  function Peek(hs: Headers, canon: Canon, key: string): string {
    if canon(key) in hs && hs[canon(key)] != [] then hs[canon(key)][0] else ""
  }

  /** `name` is among the first `n` entries. */
  predicate Listed(buffer: seq<Entry>, n: nat, name: string)
    requires n <= |buffer|
  {
    exists i :: 0 <= i < n && buffer[i].name == name
  }

  /**
   `preserveHeader`: list the name once. Spare capacity is reused with its old value; otherwise the buffer
   grows, by `spare` more.
   */
  function Preserve(c: Ctx, name: string, spare: nat): (r: Ctx)
    requires c.used <= |c.buffer|
    ensures r.used <= |r.buffer|
  {
    if Listed(c.buffer, c.used, name) then c
    else if c.used < |c.buffer| then c.(buffer := c.buffer[c.used := c.buffer[c.used].(name := name)],
      used := c.used + 1)
    else c.(buffer := c.buffer + [Entry(name, "")] + seq(spare, i => Entry("", "")), used := c.used + 1)
  }

  /** `captureAlwaysHeaders`: the values of the listed headers, as they are now. */
  function Capture(c: Ctx, canon: Canon): (r: Ctx)
    requires c.used <= |c.buffer|
    ensures |r.buffer| == |c.buffer|
    ensures forall i :: 0 <= i < |c.buffer| ==>
      r.buffer[i] == if i < c.used then c.buffer[i].(value := Peek(c.headers, canon, c.buffer[i].name)) else c.buffer[i]
  {
    c.(buffer := seq(|c.buffer|, i requires 0 <= i < |c.buffer| =>
      if i < c.used then c.buffer[i].(value := Peek(c.headers, canon, c.buffer[i].name)) else c.buffer[i]))
  }

  /** `applyAlwaysHeaders`, the first `n` entries of it. */
  function Applied(hs: Headers, canon: Canon, buffer: seq<Entry>, n: nat): Headers
    requires n <= |buffer|
  {
    if n == 0 then hs
    else
      var before, e := Applied(hs, canon, buffer, n - 1), buffer[n - 1];
      if e.value != "" then SetHeader(before, canon, e.name, e.value) else before
  }

  /** The head of `HandleError`: capture, reset the response, apply. */
  function Fail(c: Ctx, canon: Canon): Ctx
    requires c.used <= |c.buffer|
  {
    var captured := Capture(c, canon);
    captured.(headers := Applied(map[], canon, captured.buffer, c.used))
  }

  /** What happens to a pooled context: header calls of a request, an error, and its release to the next request. */
  datatype Op =
    | Set(key: string, value: string) | Add(key: string, value: string) | Del(key: string)
    | SetAlways(key: string, value: string, spare: nat) | Error | Release

  function Step(c: Ctx, canon: Canon, op: Op): (r: Ctx)
    requires c.used <= |c.buffer|
    ensures r.used <= |r.buffer|
  {
    match op
    case Set(k, v) => c.(headers := SetHeader(c.headers, canon, k, v))
    case Add(k, v) => c.(headers := AddHeader(c.headers, canon, k, v))
    case Del(k) => c.(headers := c.headers - {canon(k)})
    case SetAlways(k, v, spare) => Preserve(c.(headers := SetHeader(c.headers, canon, k, v)), k, spare)
    case Error => Fail(c, canon)
    case Release => c.(used := 0, headers := map[])
  }

  /** A new context after a history of operations. */
  function Run(ops: seq<Op>, canon: Canon): (c: Ctx)
    ensures c.used <= |c.buffer|
  {
    if ops == [] then Ctx([], 0, map[]) else Step(Run(ops[..|ops| - 1], canon), canon, ops[|ops| - 1])
  }

  // ----- what is promised ---------------------------------------------------------------------------

  /** The names registered with `SetAlways` in the current request. */
  function Registered(ops: seq<Op>): set<string> {
    if ops == [] then {}
    else
      var last, names := ops[|ops| - 1], Registered(ops[..|ops| - 1]);
      match last case Release => {} case SetAlways(k, _, _) => names + {k} case _ => names
  }

  /** `after` holds exactly the registered headers that had a non-empty value in `before`, with that value. */
  ghost predicate Keeps(before: Headers, after: Headers, canon: Canon, names: set<string>) {
    && (forall n :: n in names && Peek(before, canon, n) != "" ==>
      canon(n) in after && after[canon(n)] == [Peek(before, canon, n)])
    && (forall h :: h in after ==> exists n :: n in names && canon(n) == h && Peek(before, canon, n) != "")
  }

  /** The names in use are the registered ones. */
  ghost predicate Lists(c: Ctx, names: set<string>) {
    c.used <= |c.buffer| && forall n :: n in names <==> Listed(c.buffer, c.used, n)
  }

  lemma {:induction false} PreserveLists(c: Ctx, name: string, spare: nat, names: set<string>)
    requires Lists(c, names)
    ensures Lists(Preserve(c, name, spare), names + {name})
  {
    var r := Preserve(c, name, spare);
    forall n
      ensures n in names + {name} <==> Listed(r.buffer, r.used, n)
    {
      if n in names {
        var i :| 0 <= i < c.used && c.buffer[i].name == n;
        assert r.buffer[i].name == n;
      } else if n == name {
        if !Listed(c.buffer, c.used, name) { assert r.buffer[c.used].name == name; }
      }
      if Listed(r.buffer, r.used, n) && n != name {
        var i :| 0 <= i < r.used && r.buffer[i].name == n;
        assert i < c.used && c.buffer[i].name == n;
      }
    }
  }

  /** One of the first `n` entries has a value and sets header `h` to `vs`. */
  ghost predicate Sets(canon: Canon, buffer: seq<Entry>, n: nat, h: string, vs: seq<string>)
    requires n <= |buffer|
  {
    exists i :: 0 <= i < n && buffer[i].value != "" && canon(buffer[i].name) == h && vs == [buffer[i].value]
  }

  /**
   Applying the first `n` entries sets exactly those with a value, each to its own or that of a later entry
   of its name.
   */
  lemma {:induction false} AppliedIs(canon: Canon, buffer: seq<Entry>, n: nat)
    requires n <= |buffer|
    ensures var hs := Applied(map[], canon, buffer, n);
      && (forall i :: 0 <= i < n && buffer[i].value != "" ==> canon(buffer[i].name) in hs)
      && (forall h :: h in hs ==> Sets(canon, buffer, n, h, hs[h]))
  {
    if n > 0 {
      AppliedIs(canon, buffer, n - 1);
      var prior, hs, e := Applied(map[], canon, buffer, n - 1), Applied(map[], canon, buffer, n), buffer[n - 1];
      forall h | h in hs
        ensures Sets(canon, buffer, n, h, hs[h])
      {
        if e.value != "" && h == canon(e.name) {
          assert hs[h] == [buffer[n - 1].value];
        } else {
          assert hs[h] == prior[h] && Sets(canon, buffer, n - 1, h, prior[h]);
        }
      }
    }
  }

  lemma {:induction false} CaptureLists(c: Ctx, canon: Canon, names: set<string>)
    requires Lists(c, names)
    ensures Lists(Capture(c, canon), names)
  {
    var r := Capture(c, canon);
    forall n
      ensures n in names <==> Listed(r.buffer, r.used, n)
    {
      if i :| 0 <= i < c.used && c.buffer[i].name == n { assert r.buffer[i].name == n; }
      if i :| 0 <= i < c.used && r.buffer[i].name == n { assert c.buffer[i].name == n; }
    }
  }

  /** Applying what was captured from `before` restores exactly the listed headers. */
  lemma {:induction false} AppliedKeeps(before: Headers, canon: Canon, c: Ctx, names: set<string>)
    requires Lists(c, names) && forall i :: 0 <= i < c.used ==>
      c.buffer[i].value == Peek(before, canon, c.buffer[i].name)
    ensures Keeps(before, Applied(map[], canon, c.buffer, c.used), canon, names)
  {
    var hs := Applied(map[], canon, c.buffer, c.used);
    AppliedIs(canon, c.buffer, c.used);
    forall n | n in names && Peek(before, canon, n) != ""
      ensures canon(n) in hs && hs[canon(n)] == [Peek(before, canon, n)]
    {
      var i :| 0 <= i < c.used && c.buffer[i].name == n;
      assert c.buffer[i].value != "";
      assert Sets(canon, c.buffer, c.used, canon(n), hs[canon(n)]);
    }
    forall h | h in hs
      ensures exists n :: n in names && canon(n) == h && Peek(before, canon, n) != ""
    {
      var j :| 0 <= j < c.used && c.buffer[j].value != "" && canon(c.buffer[j].name) == h
        && hs[h] == [c.buffer[j].value];
      assert Listed(c.buffer, c.used, c.buffer[j].name);
    }
  }

  lemma {:induction false} FailKeeps(c: Ctx, canon: Canon, names: set<string>)
    requires Lists(c, names)
    ensures Keeps(c.headers, Fail(c, canon).headers, canon, names) && Lists(Fail(c, canon), names)
  {
    CaptureLists(c, canon, names);
    AppliedKeeps(c.headers, canon, Capture(c, canon), names);
  }

  /** Over every history of a pooled context, the names in use are those of the current request. */
  lemma {:induction false} RunLists(ops: seq<Op>, canon: Canon)
    ensures Lists(Run(ops, canon), Registered(ops))
    decreases |ops|
  {
    if ops != [] {
      var init, op := ops[..|ops| - 1], ops[|ops| - 1];
      RunLists(init, canon);
      var c, names := Run(init, canon), Registered(init);
      match op
      case SetAlways(k, v, spare) =>
        var d := c.(headers := SetHeader(c.headers, canon, k, v));
        PreserveLists(d, k, spare, names);
      case Error => FailKeeps(c, canon, names);
      case Release =>
      case _ => 
    }
  }

  /**
   An error leaves exactly the non-empty headers registered in this request, with the values they had
   just before; nothing the buffer held for an earlier request comes back, whatever happened before.
   */
  lemma {:induction false} ErrorKeepsRegistered(ops: seq<Op>, canon: Canon)
    ensures Keeps(Run(ops, canon).headers, Run(ops + [Error], canon).headers, canon, Registered(ops))
  {
    RunLists(ops, canon);
    FailKeeps(Run(ops, canon), canon, Registered(ops));
    RunError(ops, canon);
  }

  lemma {:induction false} RunError(ops: seq<Op>, canon: Canon)
    ensures Run(ops + [Error], canon) == Fail(Run(ops, canon), canon)
  {
    assert (ops + [Error])[..|ops|] == ops;
  }

  /** What a context without any reused storage would answer: headers and registered names only. */
  datatype Ideal = Ideal(headers: Headers, names: set<string>)

  ghost predicate IdealStep(a: Ideal, canon: Canon, op: Op, b: Ideal) {
    match op
    case Set(k, v) => b == a.(headers := SetHeader(a.headers, canon, k, v))
    case Add(k, v) => b == a.(headers := AddHeader(a.headers, canon, k, v))
    case Del(k) => b == a.(headers := a.headers - {canon(k)})
    case SetAlways(k, v, _) => b == Ideal(SetHeader(a.headers, canon, k, v), a.names + {k})
    case Error => b.names == a.names && Keeps(a.headers, b.headers, canon, a.names)
    case Release => b == Ideal(map[], {})
  }

  function Seen(ops: seq<Op>, canon: Canon): Ideal { Ideal(Run(ops, canon).headers, Registered(ops)) }

  /** Every step of the pooled context is a step of the ideal one. */
  lemma {:induction false} PooledIsIdeal(ops: seq<Op>, canon: Canon, op: Op)
    ensures IdealStep(Seen(ops, canon), canon, op, Seen(ops + [op], canon))
  {
    assert (ops + [op])[..|ops|] == ops;
    if op.Error? { ErrorKeepsRegistered(ops, canon); }
  }

  // ----- the context object ---------------------------------------------------------------------------

  class Context {
    const canon: Canon
    var buffer: array<Entry>
    var used: nat
    var headers: Headers

    ghost predicate Valid()
      reads this
    {
      used <= buffer.Length
    }

    ghost function State(): Ctx
      reads this, buffer
    {
      Ctx(buffer[..], used, headers)
    }

    constructor (canon: Canon)
      ensures Valid() && fresh(buffer) && State() == Run([], canon) && this.canon == canon
    {
      this.canon := canon;
      buffer := new Entry[0];
      used, headers := 0, map[];
    }

    method Set(key: string, value: string)
      requires Valid()
      modifies this`headers
      ensures Valid() && State() == Step(old(State()), canon, Op.Set(key, value))
    {
      headers := SetHeader(headers, canon, key, value);
    }

    method Add(key: string, value: string)
      requires Valid()
      modifies this`headers
      ensures Valid() && State() == Step(old(State()), canon, Op.Add(key, value))
    {
      headers := AddHeader(headers, canon, key, value);
    }

    method Del(key: string)
      requires Valid()
      modifies this`headers
      ensures Valid() && State() == Step(old(State()), canon, Op.Del(key))
    {
      headers := headers - {canon(key)};
    }

    /** `spare` is the capacity the runtime adds beyond need when the buffer has to grow. */
    method SetAlways(key: string, value: string, spare: nat)
      requires Valid()
      modifies this, buffer
      ensures Valid() && (buffer == old(buffer) || fresh(buffer))
        && State() == Step(old(State()), canon, Op.SetAlways(key, value, spare))
    {
      headers := SetHeader(headers, canon, key, value);
      PreserveHeader(key, spare);
    }

    method PreserveHeader(name: string, spare: nat)
      requires Valid()
      modifies this, buffer
      ensures Valid() && (buffer == old(buffer) || fresh(buffer)) && State() == Preserve(old(State()), name, spare)
    {
      var i := 0;
      while i < used
        invariant i <= used && forall j :: 0 <= j < i ==> buffer[j].name != name
      {
        if buffer[i].name == name {
          assert Listed(buffer[..], used, name);
          return;
        }
        i := i + 1;
      }
      assert !Listed(buffer[..], used, name);
      if used < buffer.Length {
        buffer[used] := buffer[used].(name := name);
        used := used + 1;
      } else {
        Grow(name, spare);
      }
    }

    /** `append` on a full buffer: a new, larger array. */
    method Grow(name: string, spare: nat)
      requires Valid() && used == buffer.Length
      modifies this
      ensures Valid() && fresh(buffer) && used == old(used) + 1 && headers == old(headers)
      ensures buffer[..] == old(buffer[..]) + [Entry(name, "")] + seq(spare, i => Entry("", ""))
    {
      var all := buffer[..] + [Entry(name, "")] + seq(spare, i => Entry("", ""));
      var bigger := new Entry[|all|](i requires 0 <= i < |all| => all[i]);
      assert bigger[..] == all;
      buffer, used := bigger, used + 1;
    }

    method CaptureAlwaysHeaders()
      requires Valid()
      modifies buffer
      ensures Valid() && State() == Capture(old(State()), canon)
    {
      var i := 0;
      while i < used
        invariant i <= used
        invariant forall j :: 0 <= j < buffer.Length ==>
          buffer[j] == if j < i then old(buffer[j]).(value := Peek(headers, canon, old(buffer[j]).name))
            else old(buffer[j])
      {
        buffer[i] := buffer[i].(value := Peek(headers, canon, buffer[i].name));
        i := i + 1;
      }
      assert buffer[..] == Capture(old(State()), canon).buffer;
    }

    method ApplyAlwaysHeaders()
      requires Valid()
      modifies this`headers
      ensures Valid() && headers == Applied(old(headers), canon, buffer[..], used)
    {
      var i := 0;
      while i < used
        invariant i <= used && headers == Applied(old(headers), canon, buffer[..], i)
      {
        if |buffer[i].value| > 0 {
          headers := SetHeader(headers, canon, buffer[i].name, buffer[i].value);
        }
        i := i + 1;
      }
    }

    /** The head of `HandleError`. */
    method HandleError()
      requires Valid()
      modifies this`headers, buffer
      ensures Valid() && State() == Step(old(State()), canon, Op.Error)
    {
      CaptureAlwaysHeaders();
      headers := map[];
      ApplyAlwaysHeaders();
    }

    /** `releaseCtx` and the next `acquireCtx`: the buffer is kept, its length is not; the next response is empty. */
    method Release()
      requires Valid()
      modifies this
      ensures Valid() && buffer == old(buffer) && State() == Step(old(State()), canon, Op.Release)
    {
      used := 0;
      headers := map[];
    }
  }
}
