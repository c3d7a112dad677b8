// Several stores over one backend: exactly when their names keep them apart.
module KeySpace {
  import opened Wrappers
  import opened StoreSpec

  /** No entity of one store can ever meet an entity of the other under one backend key. */
  ghost predicate Apart(a: string, b: string) {
    forall x: Entity, y: Entity :: Key(a, x) != Key(b, y)
  }

  /** One name, with its dot, begins the other name with its dot. */
  predicate Shadows(a: string, b: string) {
    a + "." <= b + "."
  }

  lemma ShadowCollides(a: string, b: string)
    requires Shadows(a, b)
    ensures exists x: Entity, y: Entity :: x != "" && y != "" && Key(a, x) == Key(b, y)
  {
    var pre, whole := a + ".", b + ".";
    var x: Entity := whole[|pre|..] + "x";
    assert Key(a, x) == pre + whole[|pre|..] + "x" == whole + "x" == Key(b, "x");
    assert x != "" && "x" != "" && Key(a, x) == Key(b, "x");
  }

  lemma CollisionShadows(a: string, x: Entity, b: string, y: Entity)
    requires Key(a, x) == Key(b, y) && |a| <= |b|
    ensures Shadows(a, b)
  {
    var k := Key(a, x);
    assert a + "." == k[..|a| + 1] == k[..|b| + 1][..|a| + 1];
    assert b + "." == k[..|b| + 1];
  }

  /**
   * Two stores never share a key exactly when neither dotted name begins the
   * other; differing names are not enough, even if no entity is empty.
   */
  lemma ApartIff(a: string, b: string)
    ensures Apart(a, b) <==> !Shadows(a, b) && !Shadows(b, a)
    ensures Apart(a, b) <==> forall x: Entity, y: Entity :: x != "" && y != "" ==> Key(a, x) != Key(b, y)
  {
    if Shadows(a, b) {
      ShadowCollides(a, b);
    } else if Shadows(b, a) {
      ShadowCollides(b, a);
    } else if !Apart(a, b) {
      var x: Entity, y: Entity :| Key(a, x) == Key(b, y);
      if |a| <= |b| {
        CollisionShadows(a, x, b, y);
      } else {
        CollisionShadows(b, y, a, x);
      }
    }
  }

  /** Shadowing in terms of the bare names: the names are equal, or one continues the other after a dot. */
  lemma ShadowsIff(a: string, b: string)
    ensures Shadows(a, b) <==> a == b || a + "." <= b
  {
    if Shadows(a, b) {
      if |a| == |b| {
        assert (a + ".")[..|a|] == a && (b + ".")[..|b|] == b;
      } else {
        assert (b + ".")[..|b|] == b;
        assert b[..|a| + 1] == (b + ".")[..|a| + 1] == a + ".";
      }
    }
  }

  /** Distinct names that nevertheless collide. */
  lemma DistinctNamesCanCollide()
    ensures "a" != "a.b" && !Apart("a", "a.b")
  {
    assert "a" + "." <= "a.b";
    ShadowsIff("a", "a.b");
    ApartIff("a", "a.b");
  }

  /** Stores kept apart by their names never touch what the other has stored, over any run. */
  lemma {:induction false} ApartStoresDoNotInterfere<T(!new)>(cfg: Config<T>, m: Model<T>, script: seq<Call<T>>, other: string, y: Entity)
    requires Inv(cfg, m) && Faithful(cfg) && ValidScript(script)
    requires Apart(cfg.name, other)
    ensures var disk' := Run(cfg, m, script).disk;
            && (Key(other, y) in disk' <==> Key(other, y) in m.disk)
            && (Key(other, y) in m.disk ==> disk'[Key(other, y)] == m.disk[Key(other, y)])
    decreases |script|
  {
    if script != [] {
      OutputsHead(cfg, m, script);
      var call := script[0];
      var m' := Step(cfg, m, call).m;
      StepTouchesOneKey(cfg, m, call, Key(other, y));
      ApartStoresDoNotInterfere(cfg, m', script[1..], other, y);
    }
  }

  lemma StepTouchesOneKey<T(!new)>(cfg: Config<T>, m: Model<T>, call: Call<T>, k: string)
    requires Inv(cfg, m) && Faithful(cfg) && ValidCall(call) && k != Key(cfg.name, call.op.entity)
    ensures var disk' := Step(cfg, m, call).m.disk;
            (k in disk' <==> k in m.disk) && (k in m.disk ==> disk'[k] == m.disk[k])
  {
    ReopenKeeps(cfg, m, call);
    var b, e := Before(m, call), call.op.entity;
    if !call.op.Delete? {
      LoadKeeps(cfg, b, e, call.env);
    }
  }
}
