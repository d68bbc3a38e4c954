/** The composite material record and its catalogue (ml_buckling/composite_material.py):
    optional stiffnesses that fall back to isotropic values, the reciprocal
    Poisson ratio, a registry of five named factories, and lookup of a factory
    by substring of its qualified name.

    Each factory hands its room-temperature constants to a ply-rotation utility
    whose effect this model does not see; the rotation is a parameter. */
module Materials {
  import opened Wrappers

  /** A `CompositeMaterial` object. The optional constructor arguments are kept
      raw, as the source keeps them in `_E22`, `_G12`, `_G23` and `_G13`. */
  datatype CompositeMaterial = CompositeMaterial(
    E11: real,
    nu12: real,
    rawE22: Option<real> := None,
    rawG12: Option<real> := None,
    rawG23: Option<real> := None,
    rawG13: Option<real> := None,
    plyAngle: Option<real> := None,
    materialName: Option<string> := None)
  {
    /** The transverse modulus: the given one, or E11 for an isotropic material. */
    function E22(): (r: real)
      ensures rawE22.None? ==> r == E11
      ensures rawE22.Some? ==> r == rawE22.value
    {
      if rawE22.None? then E11 else rawE22.value
    }

    /** The shear modulus: the given one, or the isotropic E11 / 2 / (1 + nu12).
        The isotropic formula divides by zero when nu12 = -1: `None`. */
    function G12(): (r: Option<real>)
      ensures rawG12.Some? ==> r == rawG12
      ensures rawG12.None? ==> (r.Some? <==> 1.0 + nu12 != 0.0)
      ensures rawG12.None? && r.Some? ==> 2.0 * (1.0 + nu12) * r.value == E11
    {
      if rawG12.Some? then rawG12
      else if 1.0 + nu12 == 0.0 then None
      else Some(E11 / 2.0 / (1.0 + nu12))
    }

    /** The reversed Poisson ratio nu12 * E22 / E11; division by a zero E11 fails: `None`. */
    function Nu21(): (r: Option<real>)
      ensures r.Some? <==> E11 != 0.0
      ensures r.Some? ==> r.value * E11 == nu12 * E22()
    {
      if E11 == 0.0 then None else Some(nu12 * E22() / E11)
    }
  }

  /** With neither E22 nor G12 given, the material is isotropic: E22 = E11,
      G12 = E / (2 (1 + nu)) and the two Poisson ratios coincide. */
  lemma IsotropicDefaults(m: CompositeMaterial)
    requires m.rawE22.None? && m.rawG12.None?
    requires m.E11 != 0.0 && 1.0 + m.nu12 != 0.0
    ensures m.E22() == m.E11
    ensures m.G12() == Some(m.E22() / (2.0 * (1.0 + m.nu12)))
    ensures m.Nu21() == Some(m.nu12)
  {
    assert m.E11 / 2.0 / (1.0 + m.nu12) == m.E11 / (2.0 * (1.0 + m.nu12));
    Cancel(m.Nu21().value, m.nu12, m.E11);
  }

  /** `CompositeMaterial(E11, nu12)` with every optional argument left out is
      isotropic: E22 falls back to E11, nu21 to nu12, and G12 to
      E11 / (2 (1 + nu12)), which fails only at nu12 = -1. */
  lemma DefaultConstructorIsotropic(E11: real, nu12: real)
    requires E11 != 0.0
    ensures var m := CompositeMaterial(E11, nu12);
      m.rawE22.None? && m.rawG12.None? && m.rawG23.None? && m.rawG13.None? &&
      m.plyAngle.None? && m.materialName.None?
    ensures CompositeMaterial(E11, nu12).E22() == E11
    ensures CompositeMaterial(E11, nu12).Nu21() == Some(nu12)
    ensures 1.0 + nu12 != 0.0 ==> CompositeMaterial(E11, nu12).G12() == Some(E11 / (2.0 * (1.0 + nu12)))
    ensures 1.0 + nu12 == 0.0 ==> CompositeMaterial(E11, nu12).G12() == None
  {
    var m := CompositeMaterial(E11, nu12);
    if 1.0 + nu12 != 0.0 {
      IsotropicDefaults(m);
    } else {
      Cancel(m.Nu21().value, nu12, E11);
    }
  }

  lemma Cancel(a: real, b: real, c: real)
    requires c != 0.0 && a * c == b * c
    ensures a == b
  {
    assert (a - b) * c == 0.0;
  }

  /** Reciprocity: nu21 / E22 == nu12 / E11 whenever both moduli are non-zero. */
  lemma PoissonReciprocity(m: CompositeMaterial)
    requires m.E11 != 0.0 && m.E22() != 0.0
    ensures m.Nu21().Some? && m.Nu21().value / m.E22() == m.nu12 / m.E11
  {
    CrossMultiply(m.Nu21().value, m.E22(), m.nu12, m.E11);
  }

  lemma CrossMultiply(a: real, b: real, c: real, d: real)
    requires b != 0.0 && d != 0.0 && a * d == c * b
    ensures a / b == c / d
  {
    assert a / b == (a * d) / (b * d);
    assert c / d == (c * b) / (d * b);
  }

  /** The five factory class methods. */
  datatype MaterialTag = Solvay5320 | SolvayMTM45 | TorayBT250E | HexcelIM7 | VictrexAE

  /** The factory's method name, which is also the name it stamps on its material. */
  function MethodName(t: MaterialTag): string
  {
    match t
    case Solvay5320 => "solvay5320"
    case SolvayMTM45 => "solvayMTM45"
    case TorayBT250E => "torayBT250E"
    case HexcelIM7 => "hexcelIM7"
    case VictrexAE => "victrexAE"
  }

  /** `__qualname__` of the class method. */
  function QualifiedName(t: MaterialTag): string
  {
    "CompositeMaterial." + MethodName(t)
  }

  /** `get_materials()`: the registry, in its fixed order. */
  function GetMaterials(): (r: seq<MaterialTag>)
    ensures |r| == 5
    ensures forall t :: RegistryIndex(t) < |r| && r[RegistryIndex(t)] == t
    ensures forall i, j :: 0 <= i < j < |r| ==> r[i] != r[j]
  {
    RegistryIndexCorrect();
    Registry
  }

  const Registry: seq<MaterialTag> := [Solvay5320, SolvayMTM45, TorayBT250E, HexcelIM7, VictrexAE]

  lemma RegistryIndexCorrect()
    ensures forall t :: RegistryIndex(t) < |Registry| && Registry[RegistryIndex(t)] == t
  {
    forall t ensures RegistryIndex(t) < |Registry| && Registry[RegistryIndex(t)] == t {
      match t
      case Solvay5320 =>
      case SolvayMTM45 =>
      case TorayBT250E =>
      case HexcelIM7 =>
      case VictrexAE =>
    }
  }

  /** Where each factory sits in the registry. */
  function RegistryIndex(t: MaterialTag): nat
  {
    match t
    case Solvay5320 => 0
    case SolvayMTM45 => 1
    case TorayBT250E => 2
    case HexcelIM7 => 3
    case VictrexAE => 4
  }

  /** Python's `p in s` on strings: p occurs in s as a contiguous block. */
  predicate Contains(s: string, p: string)
  {
    exists k :: 0 <= k <= |s| && p <= s[k..]
  }

  lemma ContainsSuffix(prefix: string, s: string)
    ensures Contains(prefix + s, s)
  {
    assert s <= (prefix + s)[|prefix|..];
  }

  /** Every character of an occurring pattern is a character of the text. */
  lemma OccurrenceChars(s: string, p: string, c: char)
    requires Contains(s, p) && c in p
    ensures c in s
  {
    var k :| 0 <= k <= |s| && p <= s[k..];
    var i :| 0 <= i < |p| && p[i] == c;
    assert s[k + i] == c;
  }

  /** `mat_name in method_name`: the qualified name of t contains the string. */
  predicate Matches(t: MaterialTag, matName: string)
  {
    Contains(QualifiedName(t), matName)
  }

  /** The position of the last `true` in `flags`, if any. */
  function LastTrue(flags: seq<bool>): (r: Option<nat>)
    ensures r.Some? ==> r.value < |flags| && flags[r.value]
    ensures r.Some? ==> forall j :: r.value < j < |flags| ==> !flags[j]
    ensures r.None? ==> forall j :: 0 <= j < |flags| ==> !flags[j]
  {
    if flags == [] then None
    else if flags[|flags| - 1] then Some(|flags| - 1)
    else LastTrue(flags[..|flags| - 1])
  }

  /** The position of the last tag in `tags` whose qualified name contains
      `matName`, if any. */
  function LastMatchIndex(matName: string, tags: seq<MaterialTag>): (r: Option<nat>)
    ensures r.Some? ==> r.value < |tags| && Matches(tags[r.value], matName)
    ensures r.Some? ==> forall j :: r.value < j < |tags| ==> !Matches(tags[j], matName)
    ensures r.None? ==> forall j :: 0 <= j < |tags| ==> !Matches(tags[j], matName)
  {
    LastTrue(MatchFlags(matName, tags))
  }

  /** Entry j says whether tag j's qualified name contains `matName`. */
  function MatchFlags(matName: string, tags: seq<MaterialTag>): (flags: seq<bool>)
    ensures |flags| == |tags| && forall j :: 0 <= j < |tags| ==> flags[j] == Matches(tags[j], matName)
  {
    seq(|tags|, j requires 0 <= j < |tags| => Matches(tags[j], matName))
  }

  /** One more tag at the end: it is the new last match exactly when it matches. */
  lemma LastMatchSnoc(matName: string, tags: seq<MaterialTag>, t: MaterialTag)
    ensures LastMatch(matName, tags + [t]) ==
      if Matches(t, matName) then Some(t) else LastMatch(matName, tags)
  {
    var flags := MatchFlags(matName, tags + [t]);
    assert flags[..|flags| - 1] == MatchFlags(matName, tags);
  }

  /** The last tag in `tags` whose qualified name contains `matName`. */
  function LastMatch(matName: string, tags: seq<MaterialTag>): Option<MaterialTag>
  {
    var i := LastMatchIndex(matName, tags);
    if i.Some? then Some(tags[i.value]) else None
  }

  /** What `get_material_from_str` selects from the registry; `None` is the failed assertion. */
  function FindMaterial(matName: string): Option<MaterialTag>
  {
    LastMatch(matName, GetMaterials())
  }

  /** `get_material_from_str(mat_name)`: scan the registry's qualified names in
      order and keep the last one that contains `mat_name`; `None` where the
      source's assertion fails because nothing matched. */
  method GetMaterialFromStr(matName: string) returns (r: Option<MaterialTag>)
    ensures r == FindMaterial(matName)
    ensures r.Some? <==> exists t :: Matches(t, matName)
    ensures r.Some? ==> Matches(r.value, matName)
    ensures r.Some? ==> forall u :: RegistryIndex(r.value) < RegistryIndex(u) ==> !Matches(u, matName)
  {
    var materials := GetMaterials();
    var methodNames := seq(|materials|, i requires 0 <= i < |materials| => QualifiedName(materials[i]));
    var found: Option<MaterialTag> := None;
    for i := 0 to |methodNames|
      invariant found == LastMatch(matName, materials[..i])
    {
      assert materials[..i + 1] == materials[..i] + [materials[i]];
      LastMatchSnoc(matName, materials[..i], materials[i]);
      if Contains(methodNames[i], matName) {
        found := Some(materials[i]);
      }
    }
    assert materials[..|materials|] == materials;
    FindMaterialSelectsLast(matName);
    r := found;
  }

  /** The registry lookup succeeds exactly when some factory matches; the
      factory it selects matches, and no factory after it in the registry does. */
  lemma FindMaterialSelectsLast(matName: string)
    ensures FindMaterial(matName).Some? <==> exists t :: Matches(t, matName)
    ensures FindMaterial(matName).Some? ==> Matches(FindMaterial(matName).value, matName)
    ensures FindMaterial(matName).Some? ==> forall u :: RegistryIndex(FindMaterial(matName).value) < RegistryIndex(u) ==> !Matches(u, matName)
  {
    var reg := GetMaterials();
    var i := LastMatchIndex(matName, reg);
    if i.None? {
      forall t ensures !Matches(t, matName) {
        assert reg[RegistryIndex(t)] == t;
      }
    } else {
      forall u | RegistryIndex(reg[i.value]) < RegistryIndex(u) ensures !Matches(u, matName) {
        assert RegistryIndex(reg[i.value]) == i.value;
        assert reg[RegistryIndex(u)] == u;
      }
    }
  }

  /** A character of the method name that no later qualified name in the registry has. */
  function Distinguishing(t: MaterialTag): (c: char)
    ensures c in MethodName(t)
  {
    match t
    case Solvay5320 => '3'
    case SolvayMTM45 => '4'
    case TorayBT250E => 'B'
    case HexcelIM7 => '7'
    case VictrexAE => 'v'
  }

  /** The distinguishing character of t occurs in no qualified name later in the registry. */
  lemma DistinguishingAbsent(t: MaterialTag, u: MaterialTag)
    requires RegistryIndex(t) < RegistryIndex(u)
    ensures Distinguishing(t) !in QualifiedName(u)
  {
    assert Distinguishing(t) !in "CompositeMaterial.";
    match u
    case Solvay5320 =>
    case SolvayMTM45 =>
    case TorayBT250E =>
    case HexcelIM7 =>
    case VictrexAE =>
  }

  /** Every factory's own method name selects that factory: no later name in
      the registry contains it. */
  lemma MethodNameRoundTrip(t: MaterialTag)
    ensures FindMaterial(MethodName(t)) == Some(t)
  {
    var reg := GetMaterials();
    var i := RegistryIndex(t);
    assert reg[i] == t;
    ContainsSuffix("CompositeMaterial.", MethodName(t));
    forall j | i < j < |reg| ensures !Matches(reg[j], MethodName(t)) {
      assert RegistryIndex(reg[j]) == j;
      if Matches(reg[j], MethodName(t)) {
        DistinguishingAbsent(t, reg[j]);
        OccurrenceChars(QualifiedName(reg[j]), MethodName(t), Distinguishing(t));
      }
    }
  }

  /** A string that every qualified name begins with (the empty string,
      "Composite", ...) matches all five, so the last factory wins. */
  lemma ClassPrefixSelectsLast(matName: string)
    requires matName <= "CompositeMaterial."
    ensures FindMaterial(matName) == Some(VictrexAE)
  {
    assert matName <= QualifiedName(VictrexAE)[0..];
  }

  /** A name with a character that no qualified name has selects nothing:
      the source's assertion fails. */
  lemma UnknownCharacterFails(matName: string, c: char)
    requires c in matName
    requires forall t :: c !in QualifiedName(t)
    ensures FindMaterial(matName) == None
  {
    forall t ensures !Matches(t, matName) {
      if Matches(t, matName) {
        OccurrenceChars(QualifiedName(t), matName, c);
      }
    }
    assert forall t :: GetMaterials()[RegistryIndex(t)] == t;
  }

  /** The attributes of the `CompositeMaterialUtility` object a factory reads back. */
  datatype PlyProperties = PlyProperties(E11: real, E22: real, nu12: real, G12: real)

  /** `rotate_ply`: rotates the ply's properties by the ply angle; its formula is not part of this model. */
  type PlyRotation = (PlyProperties, real) -> PlyProperties

  /** The room-temperature-dry constants each factory starts from (Pa, and a pure number for nu12). */
  function BaseProperties(t: MaterialTag): PlyProperties
  {
    match t
    case Solvay5320 => PlyProperties(138.461e9, 9.177e9, 0.326, 4.957e9)
    case SolvayMTM45 => PlyProperties(129.5e9, 7.936e9, 0.313, 4.764e9)
    case TorayBT250E => PlyProperties(44.74e9, 11.36e9, 0.278, 3.77e9)
    case VictrexAE => PlyProperties(131.69e9, 9.694e9, 0.3192, 4.524e9)
    case HexcelIM7 => PlyProperties(158.51e9, 8.96e9, 0.316, 4.688e9)
  }

  /** A factory class method: rotate the base properties by `plyAngle` (0.0
      when the caller gives none) and build the material, named after the
      method and carrying the angle it was given. */
  function Factory(t: MaterialTag, rotate: PlyRotation, plyAngle: real := 0.0): (m: CompositeMaterial)
    ensures m.materialName == Some(MethodName(t)) && m.plyAngle == Some(plyAngle)
    ensures m.rawG23.None? && m.rawG13.None?
    ensures var p := rotate(BaseProperties(t), plyAngle);
      m.E11 == p.E11 && m.nu12 == p.nu12 && m.E22() == p.E22 && m.G12() == Some(p.G12)
  {
    var p := rotate(BaseProperties(t), plyAngle);
    CompositeMaterial(p.E11, p.nu12, Some(p.E22), Some(p.G12), None, None, Some(plyAngle), Some(MethodName(t)))
  }

  /** A factory called without an angle rotates its ply by 0.0 and records 0.0. */
  lemma FactoryDefaultAngle(t: MaterialTag, rotate: PlyRotation)
    ensures Factory(t, rotate).plyAngle == Some(0.0)
    ensures Factory(t, rotate).E11 == rotate(BaseProperties(t), 0.0).E11
  {
  }

  /** The name a factory stamps on its material looks up that same factory, so
      no two factories share a label. */
  lemma FactoryLabelRoundTrip(t: MaterialTag, rotate: PlyRotation, plyAngle: real)
    ensures Factory(t, rotate, plyAngle).materialName.Some?
    ensures FindMaterial(Factory(t, rotate, plyAngle).materialName.value) == Some(t)
  {
    MethodNameRoundTrip(t);
  }
}
