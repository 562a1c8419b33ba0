/** The abstract syntax shared by the surface languages, as declared in
    `sd-core/src/language/mod.rs`, with its conversions between languages.

    A language fixes four label types: operators `O`, variables `V`, thunk addresses `A`
    and variable definitions `D`. A conversion between languages is given by one
    function per label type (the `From` impls the Rust `into` methods rely on). */
module Language {

  datatype Expr<O, V, A, D> = Expr(binds: seq<Bind<O, V, A, D>>, values: seq<Value<O, V, A, D>>)

  datatype Bind<O, V, A, D> = Bind(defs: seq<D>, value: Value<O, V, A, D>)

  datatype Value<O, V, A, D> =
    | Variable(name: V)
    | Thunk(thunk: Thunk<O, V, A, D>)
    | Op(op: O, args: seq<Value<O, V, A, D>>)

  datatype Thunk<O, V, A, D> = Thunk(addr: A, args: seq<D>, body: Expr<O, V, A, D>)

  /** The blanket `GetVar` impl: a variable is its own variable, whether borrowed
      (`var`) or moved (`into_var`). */
  function GetVar<V>(v: V): (r: V)
    ensures r == v
  {
    v
  }

  /** `xs.into_iter().map(f).collect()` for the label lists. */
  function MapSeq<X, Y>(xs: seq<X>, f: X -> Y): (ys: seq<Y>)
    ensures |ys| == |xs|
    ensures forall i :: 0 <= i < |xs| ==> ys[i] == f(xs[i])
  {
    seq(|xs|, i requires 0 <= i < |xs| => f(xs[i]))
  }

  /** `Expr::into`. */
  function ExprInto<O, V, A, D, O2, V2, A2, D2>(
    e: Expr<O, V, A, D>, fo: O -> O2, fv: V -> V2, fa: A -> A2, fd: D -> D2): (r: Expr<O2, V2, A2, D2>)
    ensures |r.binds| == |e.binds| && |r.values| == |e.values|
    decreases e, 1
  {
    Expr(
      seq(|e.binds|, i requires 0 <= i < |e.binds| => BindInto(e.binds[i], fo, fv, fa, fd)),
      seq(|e.values|, i requires 0 <= i < |e.values| => ValueInto(e.values[i], fo, fv, fa, fd)))
  }

  /** `Bind::into`. */
  function BindInto<O, V, A, D, O2, V2, A2, D2>(
    b: Bind<O, V, A, D>, fo: O -> O2, fv: V -> V2, fa: A -> A2, fd: D -> D2): (r: Bind<O2, V2, A2, D2>)
    ensures |r.defs| == |b.defs|
    decreases b, 1
  {
    Bind(MapSeq(b.defs, fd), ValueInto(b.value, fo, fv, fa, fd))
  }

  /** `Value::into`: the constructor is kept, and an operator keeps its arity. */
  function ValueInto<O, V, A, D, O2, V2, A2, D2>(
    v: Value<O, V, A, D>, fo: O -> O2, fv: V -> V2, fa: A -> A2, fd: D -> D2): (r: Value<O2, V2, A2, D2>)
    ensures r.Variable? <==> v.Variable?
    ensures r.Thunk? <==> v.Thunk?
    ensures r.Op? <==> v.Op?
    ensures v.Op? ==> |r.args| == |v.args|
    decreases v, 1
  {
    match v
    case Variable(x) => Variable(fv(x))
    case Thunk(t) => Value.Thunk(ThunkInto(t, fo, fv, fa, fd))
    case Op(op, args) =>
      Op(fo(op), seq(|args|, i requires 0 <= i < |args| => ValueInto(args[i], fo, fv, fa, fd)))
  }

  /** `Thunk::into`. */
  function ThunkInto<O, V, A, D, O2, V2, A2, D2>(
    t: Thunk<O, V, A, D>, fo: O -> O2, fv: V -> V2, fa: A -> A2, fd: D -> D2): (r: Thunk<O2, V2, A2, D2>)
    ensures |r.args| == |t.args|
    decreases t, 1
  {
    Thunk.Thunk(fa(t.addr), MapSeq(t.args, fd), ExprInto(t.body, fo, fv, fa, fd))
  }

  // ---------------------------------------------------------------------------
  // Properties of the conversions

  /** Converting with identity label maps changes nothing. */
  lemma {:induction false} ExprIntoIdentity<O, V, A, D>(
    e: Expr<O, V, A, D>, fo: O -> O, fv: V -> V, fa: A -> A, fd: D -> D)
    requires forall o :: fo(o) == o
    requires forall x :: fv(x) == x
    requires forall a :: fa(a) == a
    requires forall d :: fd(d) == d
    ensures ExprInto(e, fo, fv, fa, fd) == e
    decreases e, 1
  {
    var r := ExprInto(e, fo, fv, fa, fd);
    forall i | 0 <= i < |e.binds| ensures r.binds[i] == e.binds[i] {
      BindIntoIdentity(e.binds[i], fo, fv, fa, fd);
    }
    forall i | 0 <= i < |e.values| ensures r.values[i] == e.values[i] {
      ValueIntoIdentity(e.values[i], fo, fv, fa, fd);
    }
  }

  lemma {:induction false} BindIntoIdentity<O, V, A, D>(
    b: Bind<O, V, A, D>, fo: O -> O, fv: V -> V, fa: A -> A, fd: D -> D)
    requires forall o :: fo(o) == o
    requires forall x :: fv(x) == x
    requires forall a :: fa(a) == a
    requires forall d :: fd(d) == d
    ensures BindInto(b, fo, fv, fa, fd) == b
    decreases b, 1
  {
    ValueIntoIdentity(b.value, fo, fv, fa, fd);
    assert MapSeq(b.defs, fd) == b.defs;
  }

  lemma {:induction false} ValueIntoIdentity<O, V, A, D>(
    v: Value<O, V, A, D>, fo: O -> O, fv: V -> V, fa: A -> A, fd: D -> D)
    requires forall o :: fo(o) == o
    requires forall x :: fv(x) == x
    requires forall a :: fa(a) == a
    requires forall d :: fd(d) == d
    ensures ValueInto(v, fo, fv, fa, fd) == v
    decreases v, 1
  {
    match v
    case Variable(_) =>
    case Thunk(t) => ThunkIntoIdentity(t, fo, fv, fa, fd);
    case Op(op, args) =>
      var r := ValueInto(v, fo, fv, fa, fd);
      forall i | 0 <= i < |args| ensures r.args[i] == args[i] {
        ValueIntoIdentity(args[i], fo, fv, fa, fd);
      }
  }

  lemma {:induction false} ThunkIntoIdentity<O, V, A, D>(
    t: Thunk<O, V, A, D>, fo: O -> O, fv: V -> V, fa: A -> A, fd: D -> D)
    requires forall o :: fo(o) == o
    requires forall x :: fv(x) == x
    requires forall a :: fa(a) == a
    requires forall d :: fd(d) == d
    ensures ThunkInto(t, fo, fv, fa, fd) == t
    decreases t, 1
  {
    ExprIntoIdentity(t.body, fo, fv, fa, fd);
    assert MapSeq(t.args, fd) == t.args;
  }

  /** Converting twice is converting once with the composed label maps. */
  lemma {:induction false} ExprIntoCompose<O, V, A, D, O2, V2, A2, D2, O3, V3, A3, D3>(
    e: Expr<O, V, A, D>,
    fo: O -> O2, fv: V -> V2, fa: A -> A2, fd: D -> D2,
    go: O2 -> O3, gv: V2 -> V3, ga: A2 -> A3, gd: D2 -> D3)
    ensures ExprInto(ExprInto(e, fo, fv, fa, fd), go, gv, ga, gd)
         == ExprInto(e, o => go(fo(o)), x => gv(fv(x)), a => ga(fa(a)), d => gd(fd(d)))
    decreases e, 1
  {
    var r := ExprInto(ExprInto(e, fo, fv, fa, fd), go, gv, ga, gd);
    var s := ExprInto(e, o => go(fo(o)), x => gv(fv(x)), a => ga(fa(a)), d => gd(fd(d)));
    forall i | 0 <= i < |e.binds| ensures r.binds[i] == s.binds[i] {
      BindIntoCompose(e.binds[i], fo, fv, fa, fd, go, gv, ga, gd);
    }
    forall i | 0 <= i < |e.values| ensures r.values[i] == s.values[i] {
      ValueIntoCompose(e.values[i], fo, fv, fa, fd, go, gv, ga, gd);
    }
  }

  lemma {:induction false} BindIntoCompose<O, V, A, D, O2, V2, A2, D2, O3, V3, A3, D3>(
    b: Bind<O, V, A, D>,
    fo: O -> O2, fv: V -> V2, fa: A -> A2, fd: D -> D2,
    go: O2 -> O3, gv: V2 -> V3, ga: A2 -> A3, gd: D2 -> D3)
    ensures BindInto(BindInto(b, fo, fv, fa, fd), go, gv, ga, gd)
         == BindInto(b, o => go(fo(o)), x => gv(fv(x)), a => ga(fa(a)), d => gd(fd(d)))
    decreases b, 1
  {
    ValueIntoCompose(b.value, fo, fv, fa, fd, go, gv, ga, gd);
  }

  lemma {:induction false} ValueIntoCompose<O, V, A, D, O2, V2, A2, D2, O3, V3, A3, D3>(
    v: Value<O, V, A, D>,
    fo: O -> O2, fv: V -> V2, fa: A -> A2, fd: D -> D2,
    go: O2 -> O3, gv: V2 -> V3, ga: A2 -> A3, gd: D2 -> D3)
    ensures ValueInto(ValueInto(v, fo, fv, fa, fd), go, gv, ga, gd)
         == ValueInto(v, o => go(fo(o)), x => gv(fv(x)), a => ga(fa(a)), d => gd(fd(d)))
    decreases v, 1
  {
    match v
    case Variable(_) =>
    case Thunk(t) => ThunkIntoCompose(t, fo, fv, fa, fd, go, gv, ga, gd);
    case Op(op, args) =>
      var r := ValueInto(ValueInto(v, fo, fv, fa, fd), go, gv, ga, gd);
      var s := ValueInto(v, o => go(fo(o)), x => gv(fv(x)), a => ga(fa(a)), d => gd(fd(d)));
      forall i | 0 <= i < |args| ensures r.args[i] == s.args[i] {
        ValueIntoCompose(args[i], fo, fv, fa, fd, go, gv, ga, gd);
      }
  }

  lemma {:induction false} ThunkIntoCompose<O, V, A, D, O2, V2, A2, D2, O3, V3, A3, D3>(
    t: Thunk<O, V, A, D>,
    fo: O -> O2, fv: V -> V2, fa: A -> A2, fd: D -> D2,
    go: O2 -> O3, gv: V2 -> V3, ga: A2 -> A3, gd: D2 -> D3)
    ensures ThunkInto(ThunkInto(t, fo, fv, fa, fd), go, gv, ga, gd)
         == ThunkInto(t, o => go(fo(o)), x => gv(fv(x)), a => ga(fa(a)), d => gd(fd(d)))
    decreases t, 1
  {
    ExprIntoCompose(t.body, fo, fv, fa, fd, go, gv, ga, gd);
  }
}
