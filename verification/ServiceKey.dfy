/** The canonical byte stream a service's cache key is the hash of. */
module ServiceKey {

  newtype byte = x: int | 0 <= x < 256

  type Text = seq<byte>

  datatype EnvVar = EnvVar(name: Text, value: Text)

  newtype int64 = x: int | -0x8000_0000_0000_0000 <= x < 0x8000_0000_0000_0000

  datatype Service = Service(
    name: Text, image: Text, port: int64, env: seq<EnvVar>, readyCommand: seq<Text>,
    readyTimeout: int64, idleTTL: int64, memory: Text, cpus: Text)

  const TWO_TO_64: int := 0x1_0000_0000_0000_0000

  /** Go's conversion of a signed 64-bit value to an unsigned one. */
  function Wrap(v: int64): (r: nat)
    ensures r < TWO_TO_64
  {
    if v < 0 then v as int + TWO_TO_64 else v as int
  }

  /** The n low-order base-256 digits of v, most significant first. */
  function BigEndian(v: nat, n: nat): (r: Text)
    ensures |r| == n
  {
    if n == 0 then [] else BigEndian(v / 256, n - 1) + [(v % 256) as byte]
  }

  function Pow256(n: nat): nat {
    if n == 0 then 1 else 256 * Pow256(n - 1)
  }

  lemma {:induction false} BigEndianInjective(v: nat, w: nat, n: nat)
    requires v < Pow256(n) && w < Pow256(n) && BigEndian(v, n) == BigEndian(w, n)
    ensures v == w
  {
    if n > 0 {
      var x, y := BigEndian(v, n), BigEndian(w, n);
      assert x[..n - 1] == BigEndian(v / 256, n - 1) && y[..n - 1] == BigEndian(w / 256, n - 1);
      assert x[n - 1] == (v % 256) as byte && y[n - 1] == (w % 256) as byte;
      BigEndianInjective(v / 256, w / 256, n - 1);
    }
  }

  /** The number some digits spell, the most significant first. */
  function Spelled(t: Text): nat {
    if t == [] then 0 else t[0] as nat * Pow256(|t| - 1) + Spelled(t[1..])
  }

  lemma {:induction false} SpelledSnoc(t: Text, d: byte)
    ensures Spelled(t + [d]) == 256 * Spelled(t) + d as nat
  {
    if t == [] {
      assert [d][1..] == [];
      assert Spelled([d]) == d as nat * Pow256(0) + Spelled([]);
    } else {
      SpelledSnoc(t[1..], d);
      assert (t + [d])[1..] == t[1..] + [d];
      assert Pow256(|t|) == 256 * Pow256(|t| - 1);
      Scale(t[0] as nat, 256, Pow256(|t| - 1));
    }
  }

  lemma Scale(x: nat, y: nat, z: nat)
    ensures x * (y * z) == y * (x * z)
  {
  }

  /** The digits of a value that fits spell it. */
  lemma {:induction false} BigEndianSpells(v: nat, n: nat)
    requires v < Pow256(n)
    ensures Spelled(BigEndian(v, n)) == v
  {
    if n > 0 {
      BigEndianSpells(v / 256, n - 1);
      SpelledSnoc(BigEndian(v / 256, n - 1), (v % 256) as byte);
    }
  }

  function Word(v: nat): (r: Text)
    ensures |r| == 8
  {
    BigEndian(v, 8)
  }

  lemma WordInjective(v: nat, w: nat)
    requires v < TWO_TO_64 && w < TWO_TO_64 && Word(v) == Word(w)
    ensures v == w
  {
    assert Pow256(8) == TWO_TO_64 by {
      assert Pow256(4) == 0x1_0000_0000;
      assert Pow256(8) == 256 * 256 * 256 * 256 * Pow256(4);
    }
    BigEndianInjective(v, w, 8);
  }

  // ---------------------------------------------------------------- the stream

  function Str(s: Text): Text {
    Word(|s|) + s
  }

  function Strs(xs: seq<Text>): Text {
    if xs == [] then [] else Str(xs[0]) + Strs(xs[1..])
  }

  /** Names and values, alternating. */
  function EnvTexts(env: seq<EnvVar>): (r: seq<Text>)
    ensures |r| == 2 * |env|
  {
    if env == [] then [] else [env[0].name, env[0].value] + EnvTexts(env[1..])
  }

  /** Everything the hash is fed, for a given order of the environment. */
  function Stream(remote: Text, svc: Service, env: seq<EnvVar>): Text {
    Str(remote) + (Str(svc.name) + (Str(svc.image) + (Word(Wrap(svc.port)) +
      (Word(|env|) + (Strs(EnvTexts(env)) +
        (Word(|svc.readyCommand|) + (Strs(svc.readyCommand) +
          (Word(Wrap(svc.readyTimeout)) + (Word(Wrap(svc.idleTTL)) + (Str(svc.memory) + Str(svc.cpus)))))))))))
  }

  predicate Short(s: Text) {
    |s| < TWO_TO_64
  }

  /** Lengths a Go program can have. */
  predicate Sized(remote: Text, svc: Service, env: seq<EnvVar>) {
    && Short(remote) && Short(svc.name) && Short(svc.image) && Short(svc.memory) && Short(svc.cpus)
    && |env| < TWO_TO_64 && |svc.readyCommand| < TWO_TO_64
    && (forall t :: t in EnvTexts(env) ==> Short(t))
    && (forall t :: t in svc.readyCommand ==> Short(t))
  }

  lemma SplitAt(x: Text, y: Text, u: Text, v: Text)
    requires |x| == |u| && x + y == u + v
    ensures x == u && y == v
  {
    assert x == (x + y)[..|x|] && u == (u + v)[..|u|];
    assert y == (x + y)[|x|..] && v == (u + v)[|u|..];
  }

  lemma WordSplits(n: nat, x: Text, m: nat, y: Text)
    requires n < TWO_TO_64 && m < TWO_TO_64 && Word(n) + x == Word(m) + y
    ensures n == m && x == y
  {
    SplitAt(Word(n), x, Word(m), y);
    WordInjective(n, m);
  }

  /** A length-prefixed string can be read back off the front of any stream. */
  lemma StrSplits(s: Text, x: Text, t: Text, y: Text)
    requires Short(s) && Short(t) && Str(s) + x == Str(t) + y
    ensures s == t && x == y
  {
    assert Str(s) + x == Word(|s|) + (s + x) && Str(t) + y == Word(|t|) + (t + y);
    WordSplits(|s|, s + x, |t|, t + y);
    SplitAt(s, x, t, y);
  }

  lemma {:induction false} StrsSplit(xs: seq<Text>, x: Text, ys: seq<Text>, y: Text)
    requires |xs| == |ys| && (forall t :: t in xs ==> Short(t)) && (forall t :: t in ys ==> Short(t))
    requires Strs(xs) + x == Strs(ys) + y
    ensures xs == ys && x == y
  {
    if xs != [] {
      assert Strs(xs) + x == Str(xs[0]) + (Strs(xs[1..]) + x);
      assert Strs(ys) + y == Str(ys[0]) + (Strs(ys[1..]) + y);
      StrSplits(xs[0], Strs(xs[1..]) + x, ys[0], Strs(ys[1..]) + y);
      StrsSplit(xs[1..], x, ys[1..], y);
    } else {
      assert Strs(xs) + x == x && Strs(ys) + y == y;
    }
  }

  lemma {:induction false} EnvTextsInjective(e: seq<EnvVar>, f: seq<EnvVar>)
    requires EnvTexts(e) == EnvTexts(f)
    ensures e == f
  {
    if e != [] && f != [] {
      var x, y := EnvTexts(e), EnvTexts(f);
      assert x[0] == e[0].name && x[1] == e[0].value && x[2..] == EnvTexts(e[1..]);
      assert y[0] == f[0].name && y[1] == f[0].value && y[2..] == EnvTexts(f[1..]);
      EnvTextsInjective(e[1..], f[1..]);
    }
  }

  lemma WrapInjective(v: int64, w: int64)
    requires Wrap(v) == Wrap(w)
    ensures v == w
  {
  }

  /** The tail of the stream, from the ready command on. */
  function Tail(svc: Service): Text {
    Word(|svc.readyCommand|) + (Strs(svc.readyCommand) +
      (Word(Wrap(svc.readyTimeout)) + (Word(Wrap(svc.idleTTL)) + (Str(svc.memory) + Str(svc.cpus)))))
  }

  lemma TailInjective(a: Service, b: Service)
    requires Sized([], a, []) && Sized([], b, []) && Tail(a) == Tail(b)
    ensures a.readyCommand == b.readyCommand && a.readyTimeout == b.readyTimeout && a.idleTTL == b.idleTTL
    ensures a.memory == b.memory && a.cpus == b.cpus
  {
    var ax, bx := Str(a.memory) + Str(a.cpus), Str(b.memory) + Str(b.cpus);
    var ay, by' := Word(Wrap(a.idleTTL)) + ax, Word(Wrap(b.idleTTL)) + bx;
    var az, bz := Word(Wrap(a.readyTimeout)) + ay, Word(Wrap(b.readyTimeout)) + by';
    WordSplits(|a.readyCommand|, Strs(a.readyCommand) + az, |b.readyCommand|, Strs(b.readyCommand) + bz);
    StrsSplit(a.readyCommand, az, b.readyCommand, bz);
    WordSplits(Wrap(a.readyTimeout), ay, Wrap(b.readyTimeout), by');
    WordSplits(Wrap(a.idleTTL), ax, Wrap(b.idleTTL), bx);
    StrSplits(a.memory, Str(a.cpus), b.memory, Str(b.cpus));
    assert Str(a.cpus) + [] == Str(b.cpus) + [];
    StrSplits(a.cpus, [], b.cpus, []);
    WrapInjective(a.readyTimeout, b.readyTimeout);
    WrapInjective(a.idleTTL, b.idleTTL);
  }

  /** Equal streams come from equal remotes, equal services and equal ordered environments:
      no two field sequences run together into the same bytes. */
  lemma StreamInjective(remote: Text, a: Service, e: seq<EnvVar>, remote': Text, b: Service, f: seq<EnvVar>)
    requires Sized(remote, a, e) && Sized(remote', b, f) && Stream(remote, a, e) == Stream(remote', b, f)
    ensures remote == remote' && e == f && a.(env := []) == b.(env := [])
  {
    var ax, bx := Strs(EnvTexts(e)) + Tail(a), Strs(EnvTexts(f)) + Tail(b);
    var ay, by' := Word(Wrap(a.port)) + (Word(|e|) + ax), Word(Wrap(b.port)) + (Word(|f|) + bx);
    StrSplits(remote, Str(a.name) + (Str(a.image) + ay), remote', Str(b.name) + (Str(b.image) + by'));
    StrSplits(a.name, Str(a.image) + ay, b.name, Str(b.image) + by');
    StrSplits(a.image, ay, b.image, by');
    WordSplits(Wrap(a.port), Word(|e|) + ax, Wrap(b.port), Word(|f|) + bx);
    WrapInjective(a.port, b.port);
    WordSplits(|e|, ax, |f|, bx);
    StrsSplit(EnvTexts(e), Tail(a), EnvTexts(f), Tail(b));
    EnvTextsInjective(e, f);
    TailInjective(a, b);
  }

  // ---------------------------------------------------------------- order

  /** Go's byte-wise string order. */
  predicate Less(a: Text, b: Text) {
    b != [] && (a == [] || a[0] < b[0] || (a[0] == b[0] && Less(a[1..], b[1..])))
  }

  lemma {:induction false} LessIsTotal(a: Text, b: Text)
    ensures Less(a, b) || Less(b, a) || a == b
  {
    if a != [] && b != [] && a[0] == b[0] { LessIsTotal(a[1..], b[1..]); }
  }

  lemma {:induction false} LessIsTransitive(a: Text, b: Text, c: Text)
    requires !Less(b, a) && !Less(c, b)
    ensures !Less(c, a)
  {
    if a != [] && b != [] && c != [] && a[0] == b[0] == c[0] { LessIsTransitive(a[1..], b[1..], c[1..]); }
  }

  ghost predicate SortedByName(env: seq<EnvVar>) {
    forall i, j :: 0 <= i < j < |env| ==> !Less(env[j].name, env[i].name)
  }

  ghost predicate DistinctNames(env: seq<EnvVar>) {
    forall i, j :: 0 <= i < j < |env| ==> env[i].name != env[j].name
  }

  lemma HeadsAgree(e: seq<EnvVar>, f: seq<EnvVar>)
    requires e != [] && f != [] && SortedByName(e) && SortedByName(f) && DistinctNames(e)
    requires e[0] in f && f[0] in e
    ensures e[0] == f[0]
  {
    var i :| 0 <= i < |f| && f[i] == e[0];
    var j :| 0 <= j < |e| && e[j] == f[0];
    LessIsTotal(e[0].name, f[0].name);
  }

  lemma RemoveHead(e: seq<EnvVar>)
    requires e != []
    ensures multiset(e[1..]) == multiset(e) - multiset{e[0]}
  {
    assert e == [e[0]] + e[1..];
  }

  /** With distinct names there is only one sorted order. */
  lemma {:induction false} SortedIsUnique(e: seq<EnvVar>, f: seq<EnvVar>)
    requires SortedByName(e) && SortedByName(f) && multiset(e) == multiset(f) && DistinctNames(e)
    ensures e == f
  {
    assert |e| == |multiset(e)| == |multiset(f)| == |f|;
    if e != [] {
      assert e[0] in multiset(f) && f[0] in multiset(e);
      HeadsAgree(e, f);
      RemoveHead(e);
      RemoveHead(f);
      SortedIsUnique(e[1..], f[1..]);
    }
  }

  /** Sorting by insertion, on a copy. */
  method SortByName(env: seq<EnvVar>) returns (r: seq<EnvVar>)
    ensures SortedByName(r) && multiset(r) == multiset(env)
  {
    r := [];
    for k := 0 to |env|
      invariant SortedByName(r) && multiset(r) == multiset(env[..k])
    {
      var i := |r|;
      while i > 0 && Less(env[k].name, r[i - 1].name)
        invariant 0 <= i <= |r|
        invariant forall j :: i <= j < |r| ==> !Less(r[j].name, env[k].name)
      {
        LessIsTotal(r[i - 1].name, env[k].name);
        LessIsAsymmetric(env[k].name, r[i - 1].name);
        i := i - 1;
      }
      InsertKeepsSorted(r, i, env[k]);
      InsertAdds(r, i, env[k]);
      assert env[..k + 1] == env[..k] + [env[k]];
      r := r[..i] + [env[k]] + r[i..];
    }
    assert env[..|env|] == env;
  }

  lemma {:induction false} LessIsAsymmetric(a: Text, b: Text)
    requires Less(a, b)
    ensures !Less(b, a)
  {
    if a != [] && a[0] == b[0] { LessIsAsymmetric(a[1..], b[1..]); }
  }

  lemma InsertAdds(r: seq<EnvVar>, i: nat, x: EnvVar)
    requires i <= |r|
    ensures multiset(r[..i] + [x] + r[i..]) == multiset(r) + multiset{x}
  {
    assert r == r[..i] + r[i..];
  }

  lemma InsertKeepsSorted(r: seq<EnvVar>, i: nat, x: EnvVar)
    requires SortedByName(r) && i <= |r|
    requires i > 0 ==> !Less(x.name, r[i - 1].name)
    requires forall j :: i <= j < |r| ==> !Less(r[j].name, x.name)
    ensures SortedByName(r[..i] + [x] + r[i..])
  {
    forall j | 0 <= j < i ensures !Less(x.name, r[j].name) {
      if j < i - 1 { LessIsTransitive(r[j].name, r[i - 1].name, x.name); }
    }
  }

  /** Writing a piece to the hash: what is still to come moves one piece up. */
  method Write(h: Text, piece: Text, ghost rest: Text) returns (r: Text)
    ensures r == h + piece && r + rest == h + (piece + rest)
  {
    r := h + piece;
  }

  method WriteStrs(h: Text, xs: seq<Text>, ghost rest: Text) returns (r: Text)
    ensures r + rest == h + (Strs(xs) + rest)
  {
    r := h;
    for k := 0 to |xs|
      invariant r + (Strs(xs[k..]) + rest) == h + (Strs(xs) + rest)
    {
      assert Strs(xs[k..]) + rest == Str(xs[k]) + (Strs(xs[k + 1..]) + rest);
      r := Write(r, Str(xs[k]), Strs(xs[k + 1..]) + rest);
    }
    assert Strs(xs[|xs|..]) + rest == rest;
  }

  method WriteEnv(h: Text, env: seq<EnvVar>, ghost rest: Text) returns (r: Text)
    ensures r + rest == h + (Strs(EnvTexts(env)) + rest)
  {
    r := h;
    for k := 0 to |env|
      invariant r + (Strs(EnvTexts(env[k..])) + rest) == h + (Strs(EnvTexts(env)) + rest)
    {
      EnvHead(env[k..], rest);
      ghost var next := Strs(EnvTexts(env[k + 1..])) + rest;
      assert env[k..][1..] == env[k + 1..];
      r := Write(r, Str(env[k].name), Str(env[k].value) + next);
      r := Write(r, Str(env[k].value), next);
    }
    assert Strs(EnvTexts(env[|env|..])) + rest == rest;
  }

  /** The bytes the key is the hash of, field by field. */
  method KeyStream(remote: Text, svc: Service) returns (h: Text)
    ensures exists env: seq<EnvVar> ::
              SortedByName(env) && multiset(env) == multiset(svc.env) && h == Stream(remote, svc, env)
  {
    var sorted := SortByName(svc.env);
    ghost var caps := Str(svc.memory) + Str(svc.cpus);
    ghost var ttl := Word(Wrap(svc.idleTTL)) + caps;
    ghost var timeout := Word(Wrap(svc.readyTimeout)) + ttl;
    ghost var ready := Strs(svc.readyCommand) + timeout;
    ghost var tail := Word(|svc.readyCommand|) + ready;
    ghost var vars := Strs(EnvTexts(sorted)) + tail;
    ghost var count := Word(|sorted|) + vars;
    ghost var port := Word(Wrap(svc.port)) + count;
    h := Str(remote);
    h := Write(h, Str(svc.name), Str(svc.image) + port);
    h := Write(h, Str(svc.image), port);
    h := Write(h, Word(Wrap(svc.port)), count);
    h := Write(h, Word(|sorted|), vars);
    h := WriteEnv(h, sorted, tail);
    h := Write(h, Word(|svc.readyCommand|), ready);
    h := WriteStrs(h, svc.readyCommand, timeout);
    h := Write(h, Word(Wrap(svc.readyTimeout)), ttl);
    h := Write(h, Word(Wrap(svc.idleTTL)), caps);
    h := Write(h, Str(svc.memory), Str(svc.cpus));
    h := Write(h, Str(svc.cpus), []);
    assert h + [] == h;
  }

  lemma Assoc(x: Text, y: Text, z: Text)
    ensures (x + y) + z == x + (y + z)
  {
  }

  lemma EnvPair(env: seq<EnvVar>)
    requires env != []
    ensures Strs(EnvTexts(env)) == Str(env[0].name) + (Str(env[0].value) + Strs(EnvTexts(env[1..])))
  {
    var ts := EnvTexts(env);
    assert ts[1..] == [env[0].value] + EnvTexts(env[1..]) && ts[1..][1..] == EnvTexts(env[1..]);
  }

  lemma EnvHead(env: seq<EnvVar>, rest: Text)
    requires env != []
    ensures Strs(EnvTexts(env)) + rest
            == Str(env[0].name) + (Str(env[0].value) + (Strs(EnvTexts(env[1..])) + rest))
  {
    EnvPair(env);
    var x, y, z := Str(env[0].name), Str(env[0].value), Strs(EnvTexts(env[1..]));
    Assoc(x, y + z, rest);
    Assoc(y, z, rest);
  }

  /** Reordering an environment with distinct names changes nothing, whichever sorted
      orders the two sorts come up with. */
  lemma ReorderingKeepsStream(remote: Text, a: Service, b: Service, e: seq<EnvVar>, f: seq<EnvVar>)
    requires a.(env := []) == b.(env := []) && multiset(a.env) == multiset(b.env) && DistinctNames(a.env)
    requires SortedByName(e) && multiset(e) == multiset(a.env)
    requires SortedByName(f) && multiset(f) == multiset(b.env)
    ensures Stream(remote, a, e) == Stream(remote, b, f)
  {
    DistinctByMultiset(a.env, e);
    SortedIsUnique(e, f);
  }

  lemma {:induction false} DistinctByMultiset(e: seq<EnvVar>, f: seq<EnvVar>)
    requires DistinctNames(e) && multiset(e) == multiset(f)
    ensures DistinctNames(f)
  {
    forall i, j | 0 <= i < j < |f| ensures f[i].name != f[j].name {
      if f[i].name == f[j].name {
        assert f[i] in multiset(e) && f[j] in multiset(e);
        var x :| 0 <= x < |e| && e[x] == f[i];
        var y :| 0 <= y < |e| && e[y] == f[j];
        TwiceIn(f, i, j);
        OnceIn(e, x);
      }
    }
  }

  lemma TwiceIn(f: seq<EnvVar>, i: nat, j: nat)
    requires i < j < |f| && f[i] == f[j]
    ensures multiset(f)[f[i]] >= 2
  {
    assert f == f[..i] + [f[i]] + f[i + 1..j] + [f[j]] + f[j + 1..];
  }

  lemma OnceIn(e: seq<EnvVar>, x: nat)
    requires DistinctNames(e) && x < |e|
    ensures multiset(e)[e[x]] == 1
  {
    assert e == e[..x] + [e[x]] + e[x + 1..];
    assert e[x] !in e[..x] && e[x] !in e[x + 1..];
  }
}
