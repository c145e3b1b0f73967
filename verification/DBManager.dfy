/** The numbering of GEM modules: plane by plane, module by module, from zero. */
module DBManager {

  /** How often the loop over a plane's modules runs. */
  function Count(nmodule: int): nat
  {
    if nmodule < 0 then 0 else nmodule
  }

  /** The modules in the first `i` planes. */
  function Before(modules: seq<int>, i: nat): nat
    requires i <= |modules|
  {
    if i == 0 then 0 else Before(modules, i - 1) + Count(modules[i - 1])
  }

  ghost predicate IsModule(modules: seq<int>, plane: int, m: int)
  {
    0 <= plane < |modules| && 0 <= m < modules[plane]
  }

  /** The number of module `m` of `plane`. */
  ghost function Number(modules: seq<int>, plane: int, m: int): int
    requires IsModule(modules, plane, m)
  {
    Before(modules, plane) + m
  }

  lemma {:induction false} BeforeMonotone(modules: seq<int>, i: nat, j: nat)
    requires i < j <= |modules|
    ensures Before(modules, i) + Count(modules[i]) <= Before(modules, j)
  {
    if i < j - 1 {
      BeforeMonotone(modules, i, j - 1);
    }
  }

  /** The numbering goes through the modules in order, so no two share a number. */
  lemma NumberOrder(modules: seq<int>, p: int, m: int, p': int, m': int)
    requires IsModule(modules, p, m) && IsModule(modules, p', m')
    ensures Number(modules, p, m) < Number(modules, p', m') <==> p < p' || (p == p' && m < m')
  {
    if p < p' {
      BeforeMonotone(modules, p, p');
    } else if p' < p {
      BeforeMonotone(modules, p', p);
    }
  }

  /** ... and it leaves no number out. */
  lemma {:induction false} NumberOnto(modules: seq<int>, i: nat, g: nat) returns (p: int, m: int)
    requires i <= |modules| && g < Before(modules, i)
    ensures IsModule(modules, p, m) && p < i && Number(modules, p, m) == g
  {
    if g < Before(modules, i - 1) {
      p, m := NumberOnto(modules, i - 1, g);
    } else {
      p, m := i - 1, g - Before(modules, i - 1);
    }
  }

  /** The three maps the loader fills. */
  datatype Maps = Maps(toIgem: map<(int, int), int>, toPlane: map<int, int>, toModule: map<int, int>)

  /** Both directions of the numbering are stored, for the modules numbered below `n`. */
  ghost predicate Stored(s: Maps, modules: seq<int>, n: nat)
  {
    && (forall p, m :: IsModule(modules, p, m) && Number(modules, p, m) < n ==>
          (p, m) in s.toIgem && s.toIgem[(p, m)] == Number(modules, p, m))
    && (forall g :: 0 <= g < n ==> g in s.toPlane && g in s.toModule && Names(modules, g, s.toPlane[g], s.toModule[g]))
  }

  /** Nothing else is stored than what was there before. */
  ghost predicate Otherwise(s: Maps, s0: Maps, modules: seq<int>, n: nat)
  {
    && (forall p, m :: !(IsModule(modules, p, m) && Number(modules, p, m) < n) ==>
          ((p, m) in s.toIgem <==> (p, m) in s0.toIgem) && ((p, m) in s.toIgem ==> s.toIgem[(p, m)] == s0.toIgem[(p, m)]))
    && (forall g :: !(0 <= g < n) ==> (g in s.toPlane <==> g in s0.toPlane) && (g in s.toPlane ==> s.toPlane[g] == s0.toPlane[g]))
    && (forall g :: !(0 <= g < n) ==> (g in s.toModule <==> g in s0.toModule) && (g in s.toModule ==> s.toModule[g] == s0.toModule[g]))
  }

  ghost predicate Names(modules: seq<int>, g: int, p: int, m: int)
  {
    IsModule(modules, p, m) && Number(modules, p, m) == g
  }

  lemma StoreNext(s: Maps, s0: Maps, modules: seq<int>, n: nat, i: int, j: int, s': Maps)
    requires Stored(s, modules, n) && Otherwise(s, s0, modules, n)
    requires IsModule(modules, i, j) && n == Number(modules, i, j)
    requires s' == Maps(s.toIgem[(i, j) := n], s.toPlane[n := i], s.toModule[n := j])
    ensures Stored(s', modules, n + 1) && Otherwise(s', s0, modules, n + 1)
  {
    NumberNext(modules, i, j);
  }

  class DBManager {
    var fNModule: seq<int>
    var fmPMtoIgem: map<(int, int), int>
    var fmIgemtoPlane: map<int, int>
    var fmIgemtoModule: map<int, int>

    constructor ()
      ensures fNModule == [] && fmPMtoIgem == map[] && fmIgemtoPlane == map[] && fmIgemtoModule == map[]
    {
      fNModule, fmPMtoIgem, fmIgemtoPlane, fmIgemtoModule := [], map[], map[], map[];
    }

    /** Reading a `std::map` at a key it does not have gives zero. */
    static function At(m: map<int, int>, k: int): int
    {
      if k in m then m[k] else 0
    }

    function GetNModule(plane: int): int
      requires plane < |fNModule|
      reads this
    {
      if plane < 0 then 0 else fNModule[plane]
    }

    function GetPlaneID(igem: int): int
      reads this
    {
      At(fmIgemtoPlane, igem)
    }

    function GetModuleID(igem: int): int
      reads this
    {
      At(fmIgemtoModule, igem)
    }

    function GetGEMID(plane: int, m: int): int
      reads this
    {
      if (plane, m) in fmPMtoIgem then fmPMtoIgem[(plane, m)] else 0
    }

    ghost function Contents(): Maps
      reads this
    {
      Maps(fmPMtoIgem, fmIgemtoPlane, fmIgemtoModule)
    }

    ghost predicate Stores(modules: seq<int>, n: nat)
      reads this
    {
      Stored(Contents(), modules, n)
    }

    /** Loads the counts. What an earlier load has stored is overwritten where the numbers
        meet, and the counts are appended to the earlier ones. */
    method LoadGeneralInfo(nGEMPlane: int, modules: seq<int>) returns (ok: bool)
      modifies this
      ensures ok <==> nGEMPlane == |modules|
      ensures ok ==> fNModule == old(fNModule) + modules && Stores(modules, Before(modules, |modules|))
      ensures ok ==> Otherwise(Contents(), old(Contents()), modules, Before(modules, |modules|))
      ensures !ok ==> fNModule == old(fNModule) && Contents() == old(Contents())
    {
      if nGEMPlane != |modules| {
        return false;
      }
      var nGEMtot := 0;
      ghost var s0 := Contents();
      NothingStored(s0, modules);
      for i := 0 to nGEMPlane
        invariant fNModule == old(fNModule) + modules[..i] && nGEMtot == Before(modules, i)
        invariant Stores(modules, nGEMtot) && Otherwise(Contents(), s0, modules, nGEMtot)
      {
        var nmodule := modules[i];
        fNModule := fNModule + [nmodule];
        for j := 0 to Count(nmodule)
          invariant fNModule == old(fNModule) + modules[..i + 1] && nGEMtot == Before(modules, i) + j
          invariant Stores(modules, nGEMtot) && Otherwise(Contents(), s0, modules, nGEMtot)
        {
          ghost var s := Contents();
          fmPMtoIgem := fmPMtoIgem[(i, j) := nGEMtot];
          fmIgemtoPlane := fmIgemtoPlane[nGEMtot := i];
          fmIgemtoModule := fmIgemtoModule[nGEMtot := j];
          StoreNext(s, s0, modules, nGEMtot, i, j, Contents());
          nGEMtot := nGEMtot + 1;
        }
      }
      ok := true;
    }
  }

  lemma NothingStored(s: Maps, modules: seq<int>)
    ensures Stored(s, modules, 0) && Otherwise(s, s, modules, 0)
  {
    forall p, m | IsModule(modules, p, m)
      ensures Number(modules, p, m) >= 0
    {
    }
  }

  lemma NumberNext(modules: seq<int>, i: nat, j: nat)
    requires IsModule(modules, i, j)
    ensures forall p, m :: IsModule(modules, p, m) ==>
              (Number(modules, p, m) < Number(modules, i, j) + 1 <==> Number(modules, p, m) < Number(modules, i, j) || (p == i && m == j))
  {
    forall p, m | IsModule(modules, p, m)
      ensures Number(modules, p, m) < Number(modules, i, j) + 1 <==> Number(modules, p, m) < Number(modules, i, j) || (p == i && m == j)
    {
      NumberOrder(modules, p, m, i, j);
      NumberOrder(modules, i, j, p, m);
    }
  }

  /** So looking up a module's number and then its plane and module gives the module back,
      and the other way round for every number up to the total. */
  lemma NumberingIsBijective(db: DBManager, modules: seq<int>)
    requires db.Stores(modules, Before(modules, |modules|))
    ensures forall p, m :: IsModule(modules, p, m) ==>
              0 <= db.GetGEMID(p, m) < Before(modules, |modules|)
              && db.GetPlaneID(db.GetGEMID(p, m)) == p && db.GetModuleID(db.GetGEMID(p, m)) == m
    ensures forall g :: 0 <= g < Before(modules, |modules|) ==>
              IsModule(modules, db.GetPlaneID(g), db.GetModuleID(g))
              && db.GetGEMID(db.GetPlaneID(g), db.GetModuleID(g)) == g
  {
    forall p, m | IsModule(modules, p, m)
      ensures 0 <= db.GetGEMID(p, m) < Before(modules, |modules|)
              && db.GetPlaneID(db.GetGEMID(p, m)) == p && db.GetModuleID(db.GetGEMID(p, m)) == m
    {
      BeforeMonotone(modules, p, |modules|);
      var g := Number(modules, p, m);
      assert (p, m) in db.fmPMtoIgem && Names(modules, g, db.fmIgemtoPlane[g], db.fmIgemtoModule[g]);
      NumberOrder(modules, p, m, db.GetPlaneID(g), db.GetModuleID(g));
      NumberOrder(modules, db.GetPlaneID(g), db.GetModuleID(g), p, m);
    }
    forall g | 0 <= g < Before(modules, |modules|)
      ensures IsModule(modules, db.GetPlaneID(g), db.GetModuleID(g))
              && db.GetGEMID(db.GetPlaneID(g), db.GetModuleID(g)) == g
    {
      assert Names(modules, g, db.fmIgemtoPlane[g], db.fmIgemtoModule[g]);
      BeforeMonotone(modules, db.GetPlaneID(g), |modules|);
    }
  }
}
