/** `UpsInfo`: the shared readings, and the notifications its clients receive. */
module Readings {
  import opened Lists
  import opened Maps

  /** `UpsValue`: equal only if of the same type. */
  datatype Value = Signed(n: int) | Text(s: string)

  datatype Datum = Datum(ci: int, value: Value)

  /** `getbool` calls `lval`, which aborts the process on a string. */
  datatype Flag = Yes | No | Abort

  /** `inbox` is what each client has received. */
  datatype Info = Info(values: map<int, Value>, clients: seq<nat>, inbox: map<nat, seq<Datum>>)

  function Got(inbox: map<nat, seq<Datum>>, c: nat): seq<Datum> {
    if c in inbox then inbox[c] else []
  }

  function Deliver(inbox: map<nat, seq<Datum>>, clients: seq<nat>, d: Datum): map<nat, seq<Datum>> {
    if clients == [] then inbox
    else
      var rest, c := Deliver(inbox, clients[..|clients| - 1], d), clients[|clients| - 1];
      rest[c := Got(rest, c) + [d]]
  }

  function FirstIndex(clients: seq<nat>, c: nat): (i: nat)
    ensures i <= |clients|
    ensures i < |clients| ==> clients[i] == c
    ensures c !in clients[..i]
  {
    if clients == [] || clients[0] == c then 0 else 1 + FirstIndex(clients[1..], c)
  }

  datatype Action =
    | Update(ci: int, val: Value)
    | Fetch(ci: int)            // get(int): a missing reading is inserted as signed 0
    | Register(client: nat)
    | Unregister(client: nat)

  function Next(s: Info, a: Action): Info {
    match a
    case Update(ci, val) =>
      if ci !in s.values || s.values[ci] != val
      then s.(values := s.values[ci := val], inbox := Deliver(s.inbox, s.clients, Datum(ci, val)))
      else s
    case Fetch(ci) => if ci in s.values then s else s.(values := s.values[ci := Signed(0)])
    case Register(c) => s.(clients := s.clients + [c])
    case Unregister(c) =>
      var i := FirstIndex(s.clients, c);
      if i < |s.clients| then s.(clients := s.clients[..i] + s.clients[i + 1..]) else s
  }

  function Run(s: Info, run: seq<Action>): Info
    decreases |run|
  {
    if run == [] then s else Next(Run(s, run[..|run| - 1]), run[|run| - 1])
  }

  // ---- what a client can reconstruct ----

  /** The readings after applying the data received, in order. */
  function Replay(values: map<int, Value>, got: seq<Datum>): map<int, Value> {
    if got == [] then values
    else Replay(values, got[..|got| - 1])[got[|got| - 1].ci := got[|got| - 1].value]
  }

  /** `mirror` agrees with `values`, except for readings never reported, which read as signed 0. */
  ghost predicate Tracks(values: map<int, Value>, mirror: map<int, Value>) {
    && (forall ci :: ci in mirror ==> ci in values && values[ci] == mirror[ci])
    && (forall ci :: ci in values && ci !in mirror ==> values[ci] == Signed(0))
  }

  /** Every datum says something new about its reading. */
  ghost predicate AllNews(values: map<int, Value>, got: seq<Datum>) {
    forall i :: 0 <= i < |got| ==> IsNews(values, got, i)
  }

  predicate IsNews(values: map<int, Value>, got: seq<Datum>, i: nat)
    requires i < |got|
  {
    var known := Replay(values, got[..i]);
    got[i].ci !in known || known[got[i].ci] != got[i].value
  }

  function Copies(d: Datum, n: nat): seq<Datum> { seq(n, _ => d) }

  /** A client receives each datum as often as it is registered. */
  lemma {:induction false} DeliverCopies(inbox: map<nat, seq<Datum>>, clients: seq<nat>, d: Datum, c: nat)
    ensures Got(Deliver(inbox, clients, d), c) == Got(inbox, c) + Copies(d, multiset(clients)[c])
  {
    if clients != [] {
      var init, last := clients[..|clients| - 1], clients[|clients| - 1];
      DeliverCopies(inbox, init, d, c);
      assert clients == init + [last];
    }
  }

  lemma AllHear(inbox: map<nat, seq<Datum>>, clients: seq<nat>, d: Datum)
    ensures forall c :: Got(Deliver(inbox, clients, d), c) == Got(inbox, c) + Copies(d, multiset(clients)[c])
  {
    forall c ensures Got(Deliver(inbox, clients, d), c) == Got(inbox, c) + Copies(d, multiset(clients)[c]) {
      DeliverCopies(inbox, clients, d, c);
    }
  }

  /** The calls that register or unregister `c` itself. */
  predicate About(a: Action, c: nat) { (a.Register? || a.Unregister?) && a.client == c }

  /** Other clients coming and going do not change how often `c` is registered. */
  lemma RegistrationStays(s: Info, a: Action, c: nat)
    requires !About(a, c)
    ensures multiset(Next(s, a).clients)[c] == multiset(s.clients)[c]
  {
    if a.Unregister? {
      var i := FirstIndex(s.clients, a.client);
      if i < |s.clients| { assert s.clients == s.clients[..i] + [a.client] + s.clients[i + 1..]; }
    }
  }

  /** What `c` has received between two moments. */
  function Since(s: Info, s': Info, c: nat): seq<Datum> {
    if |Got(s.inbox, c)| <= |Got(s'.inbox, c)| then Got(s'.inbox, c)[|Got(s.inbox, c)|..] else []
  }

  /** What `c` has received since `s`, replayed over the readings then, gives those of now. */
  ghost predicate Following(s: Info, s': Info, c: nat) {
    && Got(s.inbox, c) <= Got(s'.inbox, c)
    && Tracks(s'.values, Replay(s.values, Since(s, s', c)))
  }

  /** Receiving the same datum several times is like receiving it once. */
  lemma {:induction false} ReplayCopies(values: map<int, Value>, got: seq<Datum>, d: Datum, n: nat)
    ensures Replay(values, got + Copies(d, n))
            == if n == 0 then Replay(values, got) else Replay(values, got)[d.ci := d.value]
  {
    if n == 0 {
      assert got + Copies(d, 0) == got;
    } else {
      assert (got + Copies(d, n))[..|got| + n - 1] == got + Copies(d, n - 1);
      ReplayCopies(values, got, d, n - 1);
    }
  }

  lemma FollowUpdate(s: Info, s': Info, c: nat, ci: int, val: Value)
    requires Following(s, s', c) && multiset(s'.clients)[c] >= 1
    ensures Following(s, Next(s', Update(ci, val)), c)
  {
    if ci !in s'.values || s'.values[ci] != val {
      var d, n := Datum(ci, val), multiset(s'.clients)[c];
      DeliverCopies(s'.inbox, s'.clients, d, c);
      var got := Since(s, s', c);
      assert Since(s, Next(s', Update(ci, val)), c) == got + Copies(d, n);
      ReplayCopies(s.values, got, d, n);
    }
  }

  /** Registered once, it hears nothing twice. */
  lemma NewsUpdate(s: Info, s': Info, c: nat, ci: int, val: Value)
    requires Following(s, s', c) && AllNews(s.values, Since(s, s', c)) && multiset(s'.clients)[c] == 1
    ensures AllNews(s.values, Since(s, Next(s', Update(ci, val)), c))
  {
    if ci !in s'.values || s'.values[ci] != val {
      var d := Datum(ci, val);
      DeliverCopies(s'.inbox, s'.clients, d, c);
      var got := Since(s, s', c);
      assert Copies(d, 1) == [d];
      assert Since(s, Next(s', Update(ci, val)), c) == got + [d];
      assert (got + [d])[..|got|] == got;
      forall i | 0 <= i < |got| + 1 ensures IsNews(s.values, got + [d], i) {
        if i < |got| { assert IsNews(s.values, got, i) && (got + [d])[..i] == got[..i]; }
      }
    }
  }

  /** From its registration on, what a client has received, replayed over the readings at that
      moment, gives the current readings (up to signed-0 entries silently inserted by `get(int)`),
      however often it is registered; registered once, no notification repeats what it already knew. */
  lemma {:induction false} ReplayTracks(s: Info, run: seq<Action>, c: nat)
    requires multiset(s.clients)[c] >= 1
    requires forall i :: 0 <= i < |run| ==> !About(run[i], c)
    ensures multiset(Run(s, run).clients)[c] == multiset(s.clients)[c] && Following(s, Run(s, run), c)
    ensures multiset(s.clients)[c] == 1 ==> AllNews(s.values, Since(s, Run(s, run), c))
    decreases |run|
  {
    if run != [] {
      var before, a := Run(s, run[..|run| - 1]), run[|run| - 1];
      ReplayTracks(s, run[..|run| - 1], c);
      RegistrationStays(before, a, c);
      if a.Update? {
        FollowUpdate(s, before, c, a.ci, a.val);
        if multiset(s.clients)[c] == 1 { NewsUpdate(s, before, c, a.ci, a.val); }
      }
    }
  }

  lemma {:induction false} ReplayKeeps(values: map<int, Value>, got: seq<Datum>, ci: int, i: nat, j: nat)
    requires i < j <= |got| && got[i].ci == ci
    requires forall m :: i < m < j ==> got[m].ci != ci
    ensures ci in Replay(values, got[..j]) && Replay(values, got[..j])[ci] == got[i].value
  {
    assert got[..j][..j - 1] == got[..j - 1];
    if i < j - 1 { ReplayKeeps(values, got, ci, i, j - 1); }
  }

  /** Consecutive notifications of one reading never carry equal values. */
  lemma ConsecutiveDiffer(values: map<int, Value>, got: seq<Datum>, i: nat, j: nat)
    requires AllNews(values, got)
    requires i < j < |got| && got[i].ci == got[j].ci
    requires forall m :: i < m < j ==> got[m].ci != got[j].ci
    ensures got[i].value != got[j].value
  {
    ReplayKeeps(values, got, got[j].ci, i, j);
    assert IsNews(values, got, j);
  }

  // ---- what a client hears between its registration and its leaving ----

  /** The readings after a run, given those before. */
  function Values(values: map<int, Value>, run: seq<Action>): map<int, Value> {
    if run == [] then values
    else
      var was := Values(values, run[..|run| - 1]);
      match run[|run| - 1]
      case Update(ci, val) => was[ci := val]
      case Fetch(ci) => if ci in was then was else was[ci := Signed(0)]
      case _ => was
  }

  /** The last update of a run gives a reading a value it did not have. */
  predicate ChangesLast(values: map<int, Value>, run: seq<Action>)
    requires run != []
  {
    var was, a := Values(values, run[..|run| - 1]), run[|run| - 1];
    a.Update? && (a.ci !in was || was[a.ci] != a.val)
  }

  /** The updates of a run that change a reading, in order. */
  function Changes(values: map<int, Value>, run: seq<Action>): seq<Datum> {
    if run == [] then []
    else
      var a := run[|run| - 1];
      Changes(values, run[..|run| - 1]) + (if ChangesLast(values, run) then [Datum(a.ci, a.val)] else [])
  }

  predicate NotAbout(run: seq<Action>, c: nat) { forall i :: 0 <= i < |run| ==> !About(run[i], c) }

  /** Registered `n` times, a client receives each change `n` times. */
  function Repeated(ds: seq<Datum>, n: nat): seq<Datum> {
    if ds == [] then [] else Repeated(ds[..|ds| - 1], n) + Copies(ds[|ds| - 1], n)
  }

  /** Over any run without calls about `c`, it hears of every change as often as it is registered. */
  lemma {:induction false} HearsChanges(s: Info, run: seq<Action>, c: nat)
    requires NotAbout(run, c)
    ensures var t, n := Run(s, run), multiset(s.clients)[c];
            && t.values == Values(s.values, run) && multiset(t.clients)[c] == n
            && Got(t.inbox, c) == Got(s.inbox, c) + Repeated(Changes(s.values, run), n)
    decreases |run|
  {
    if run != [] {
      var init, a := run[..|run| - 1], run[|run| - 1];
      HearsChanges(s, init, c);
      RegistrationStays(Run(s, init), a, c);
      HearsOne(Run(s, init), a, c);
      RepeatedMore(Changes(s.values, init), run, s.values, multiset(s.clients)[c]);
      SeqAssoc(Got(s.inbox, c), Repeated(Changes(s.values, init), multiset(s.clients)[c]),
               HeardAt(Values(s.values, init), a, multiset(s.clients)[c]));
    }
  }

  /** What one call brings to a client registered `n` times. */
  function HeardAt(values: map<int, Value>, a: Action, n: nat): seq<Datum> {
    if a.Update? && (a.ci !in values || values[a.ci] != a.val) then Copies(Datum(a.ci, a.val), n) else []
  }

  lemma HearsOne(t: Info, a: Action, c: nat)
    requires !About(a, c)
    ensures Got(Next(t, a).inbox, c) == Got(t.inbox, c) + HeardAt(t.values, a, multiset(t.clients)[c])
    ensures a.Update? ==> Next(t, a).values == t.values[a.ci := a.val]
  {
    if a.Update? { DeliverCopies(t.inbox, t.clients, Datum(a.ci, a.val), c); }
  }

  lemma RepeatedMore(ds: seq<Datum>, run: seq<Action>, values: map<int, Value>, n: nat)
    requires run != [] && ds == Changes(values, run[..|run| - 1])
    ensures Repeated(Changes(values, run), n)
            == Repeated(ds, n) + HeardAt(Values(values, run[..|run| - 1]), run[|run| - 1], n)
  {
    var a := run[|run| - 1];
    if ChangesLast(values, run) {
      assert (ds + [Datum(a.ci, a.val)])[..|ds|] == ds;
    } else {
      assert ds + [] == ds;
    }
  }

  lemma SeqAssoc<X>(a: seq<X>, b: seq<X>, c: seq<X>)
    ensures a + (b + c) == (a + b) + c
  {
  }

  lemma {:induction false} RepeatedOnceOrNever(ds: seq<Datum>)
    ensures Repeated(ds, 1) == ds && Repeated(ds, 0) == []
  {
    if ds != [] {
      RepeatedOnceOrNever(ds[..|ds| - 1]);
      assert Copies(ds[|ds| - 1], 1) == [ds[|ds| - 1]];
    }
  }

  /** A client that is not registered, registers, and later unregisters receives exactly the changes in
      between, each once and in order, and nothing afterwards, whatever else is called. */
  lemma HearsWhileRegistered(s: Info, during: seq<Action>, later: seq<Action>, c: nat)
    requires c !in s.clients && NotAbout(during, c) && NotAbout(later, c)
    ensures var t := Run(Next(s, Register(c)), during);
            && Got(t.inbox, c) == Got(s.inbox, c) + Changes(s.values, during)
            && Got(Run(Next(t, Unregister(c)), later).inbox, c) == Got(t.inbox, c)
  {
    var x := Next(s, Register(c));
    var t := Run(x, during);
    var y := Next(t, Unregister(c));
    assert multiset(x.clients)[c] == 1;
    HearsChanges(x, during, c);
    RepeatedOnceOrNever(Changes(s.values, during));
    LeavesOne(t, c);
    HearsChanges(y, later, c);
    RepeatedOnceOrNever(Changes(y.values, later));
  }

  lemma LeavesOne(s: Info, c: nat)
    requires multiset(s.clients)[c] > 0
    ensures var t := Next(s, Unregister(c));
            multiset(t.clients)[c] == multiset(s.clients)[c] - 1 && t.inbox == s.inbox && t.values == s.values
  {
    DropsOne(s.clients, Next(s, Unregister(c)).clients, FirstIndex(s.clients, c), c);
  }

  /** Taking one element out lowers its count by one and leaves the others. */
  lemma TakesOne<X>(s: seq<X>, i: nat)
    requires i < |s|
    ensures multiset(s) == multiset(s[..i] + s[i + 1..]) + multiset{s[i]}
  {
    assert s == s[..i] + [s[i]] + s[i + 1..];
  }

  /** `now` is `was` without `c`'s first registration, at `k`, if there is one. */
  predicate Drops(was: seq<nat>, now: seq<nat>, k: nat, c: nat) {
    && k <= |was| && c !in was[..k]
    && if k < |was| then was[k] == c && now == was[..k] + was[k + 1..] else now == was
  }

  lemma DropsOne(was: seq<nat>, now: seq<nat>, k: nat, c: nat)
    requires Drops(was, now, k, c)
    ensures multiset(now)[c] == (if multiset(was)[c] > 0 then multiset(was)[c] - 1 else 0)
    ensures forall d :: d != c ==> multiset(now)[d] == multiset(was)[d]
  {
    if k < |was| { TakesOne(was, k); } else { assert was[..k] == was; }
  }

  // ---- the class ----

  lemma {:induction false} FirstIndexIs(clients: seq<nat>, c: nat, k: nat)
    requires k <= |clients| && (forall i :: 0 <= i < k ==> clients[i] != c) && (k < |clients| ==> clients[k] == c)
    ensures FirstIndex(clients, c) == k
  {
    if k > 0 { FirstIndexIs(clients[1..], c, k - 1); }
  }

  class UpsInfo {
    const values: AMap<int, Value>
    const clients: AList<nat>
    var inbox: map<nat, seq<Datum>>

    ghost predicate Valid()
      reads this, values, values.pairs, values.pairs.nodes, clients, clients.nodes
    {
      values.Valid() && values.zero == Signed(0) && clients.Valid()
    }

    ghost function View(): Info
      reads this, values, values.pairs, values.pairs.nodes, clients, clients.nodes
    {
      Info(values.Model(), clients.Contents(), inbox)
    }

    /** By default the battery is taken to be connected. */
    constructor (batteryPresent: int)
      ensures Valid() && View() == Info(map[batteryPresent := Signed(1)], [], map[])
    {
      var v := new AMap(Signed(0));
      v.Put(batteryPresent, Signed(1));
      values := v;
      clients := new AList();
      inbox := map[];
    }

    method RegClient(c: nat)
      requires Valid()
      modifies clients, clients.nodes
      ensures Valid() && View() == Next(old(View()), Register(c))
      ensures clients.Contents() == old(clients.Contents()) + [c]
    {
      var nd := clients.Append(c);
    }

    /** Drops the client's first registration, the `k`-th of all, if there is one. */
    method UnregClient(c: nat) returns (ghost k: nat)
      requires Valid()
      modifies clients, clients.nodes
      ensures Valid() && View() == Next(old(View()), Unregister(c))
      ensures var was, now := old(clients.Contents()), clients.Contents();
              && k <= |was| && c !in was[..k]
              && (k < |was| ==> was[k] == c && now == was[..k] + was[k + 1..])
              && (k == |was| ==> now == was)
      ensures var was, now := multiset(old(clients.Contents())), multiset(clients.Contents());
              && now[c] == (if was[c] > 0 then was[c] - 1 else 0)
              && forall d :: d != c ==> now[d] == was[d]
    {
      ghost var was := clients.Contents();
      k := FindAndDrop(c);
      DropsOne(was, clients.Contents(), k, c);
    }

    method FindAndDrop(c: nat) returns (ghost k: nat)
      requires Valid()
      modifies clients, clients.nodes
      ensures Valid() && View() == Next(old(View()), Unregister(c))
      ensures Drops(old(clients.Contents()), clients.Contents(), k, c)
    {
      var iter;
      iter, k := FindClient(c);
      if iter != null { DropClient(iter, k); }
    }

    method DropClient(iter: Node<nat>, ghost k: nat)
      requires Valid() && iter == clients.At(k)
      modifies clients, clients.nodes
      ensures Valid()
      ensures var s := old(View());
              k < |s.clients| && View() == s.(clients := s.clients[..k] + s.clients[k + 1..])
    {
      WithoutIsSplice(clients.Contents(), k);
      var next := clients.Remove(iter, k);
      assert unchanged(values.pairs) && unchanged(values.pairs.nodes);
    }

    method FindClient(c: nat) returns (iter: Node?<nat>, ghost k: nat)
      requires Valid()
      ensures iter == clients.At(k) && k == FirstIndex(clients.Contents(), c)
    {
      iter, k := clients.Find(c, (a, b) => a == b);
      assert iter != null ==> clients.Contents()[k] == iter.elem;
      FirstIndexIs(clients.Contents(), c, k);
    }

    method UpdateValue(ci: int, val: Value)
      requires Valid()
      modifies this, values.pairs, values.pairs.nodes
      ensures Valid() && View() == Next(old(View()), Update(ci, val))
      ensures var s, t := old(View()), View();
              && t.values == s.values[ci := val] && t.clients == s.clients
              && forall c :: Got(t.inbox, c) ==
                   if ci in s.values && s.values[ci] == val then Got(s.inbox, c)
                   else Got(s.inbox, c) + Copies(Datum(ci, val), multiset(s.clients)[c])
    {
      ghost var s := View();
      var found, was := Get(ci);
      if !found || was != val {
        StoreAndNotify(ci, val);
        AllHear(s.inbox, s.clients, Datum(ci, val));
      }
    }

    method StoreAndNotify(ci: int, val: Value)
      requires Valid()
      modifies this, values.pairs, values.pairs.nodes
      ensures Valid()
      ensures var s := old(View());
              View() == Info(s.values[ci := val], s.clients, Deliver(s.inbox, s.clients, Datum(ci, val)))
    {
      values.Put(ci, val);
      assert unchanged(clients) && unchanged(clients.nodes);
      Notify(ci, val);
    }

    method Notify(ci: int, val: Value)
      requires Valid()
      modifies this
      ensures Valid() && inbox == Deliver(old(inbox), clients.Contents(), Datum(ci, val))
    {
      ghost var all, k := clients.Contents(), 0;
      var iter := clients.head;
      while iter != null
        invariant 0 <= k <= |all| && iter == clients.At(k)
        invariant inbox == Deliver(old(inbox), all[..k], Datum(ci, val))
        decreases |all| - k
      {
        assert all[..k + 1][..k] == all[..k] && all[k] == iter.elem;
        inbox := inbox[iter.elem := Got(inbox, iter.elem) + [Datum(ci, val)]];
        iter := iter.next;
        k := k + 1;
      }
      assert all[..k] == all;
    }

    /** Looking a reading up changes nothing. */
    method Get(ci: int) returns (found: bool, val: Value)
      requires Valid()
      modifies values.pairs, values.pairs.nodes
      ensures unchanged(values.pairs) && unchanged(old(values.pairs.nodes))
      ensures found <==> ci in View().values
      ensures found ==> val == View().values[ci]
    {
      found := values.Contains(ci);
      val := Signed(0);
      if found {
        var nd, k := values.Slot(ci);
        val := nd.elem.val;
      }
    }

    method GetRef(ci: int) returns (val: Value)
      requires Valid()
      modifies values.pairs, values.pairs.nodes
      ensures Valid() && View() == Next(old(View()), Fetch(ci))
      ensures var was := old(View());
              && val == (if ci in was.values then was.values[ci] else Signed(0))
              && View() == was.(values := was.values[ci := val])
    {
      var nd, k := values.Slot(ci);
      val := nd.elem.val;
    }

    method GetBool(ci: int) returns (b: Flag)
      requires Valid()
      ensures b == Yes <==> ci in View().values && View().values[ci].Signed? && View().values[ci].n != 0
      ensures b == Abort <==> ci in View().values && View().values[ci].Text?
    {
      var iter, k := values.pairs.Find(KeyVal(ci, values.zero), SameKey);
      MapOfPairs(values.pairs.Contents());
      if iter == null { return No; }
      assert values.pairs.Contents()[k] == iter.elem;
      match iter.elem.val {
        case Signed(n) => b := if n != 0 then Yes else No;
        case Text(_) => b := Abort;
      }
    }
  }
}
