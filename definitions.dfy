/** The enumerations and default parameter tables of the indentation
    package: how a test is run (`Method`), who built the instrument
    (`Vendor`), and the numerical defaults the evaluation starts from. */
module Definitions {
  import opened Numerics

  /** ISO: one unloading; MULTI: several unloadings in one loading curve;
      CSM: continuous stiffness measurement. */
  datatype Method = ISO | MULTI | CSM

  /** The instrument families the package reads. There is no HDF5 member
      other than `CommonHDF5`. */
  datatype Vendor = Agilent | Hysitron | Micromaterials | FischerScope | CommonHDF5

  datatype FileType = Single | Multi

  /** A value stored in one of the parameter dictionaries. */
  datatype Value = Num(r: real) | Flag(b: bool) | Text(s: string) | Indices(m: map<string, int>)

  type Dict = map<string, Value>

  /** The vendor table is keyed by a vendor or by the name of a converter script. */
  datatype VendorKey = OfVendor(v: Vendor) | Converter(script: string)

  const DefaultModel: Dict := map[
    "nuTip" := Num(0.07),
    "modulusTip" := Num(1140.0),
    "beta" := Num(0.75),
    "nonMetal" := Num(1.0),
    "driftRate" := Num(0.0)]

  function Thresholds(pMax: real, pMin: real, noise: real): Dict {
    map["unloadPMax" := Num(pMax), "unloadPMin" := Num(pMin), "relForceNoise" := Num(noise)]
  }

  const DefaultVendorDependent: map<VendorKey, Dict> := map[
    OfVendor(Agilent) := Thresholds(0.999, 0.5, 0.02),
    OfVendor(Hysitron) := Thresholds(0.95, 0.4, 0.2),
    OfVendor(Micromaterials) := Thresholds(0.99, 0.5, 0.02),
    OfVendor(FischerScope) := Thresholds(0.95, 0.21, 0.01),
    OfVendor(CommonHDF5) := Thresholds(0.99, 0.5, 0.02),
    Converter("hap2hdf.py") := Thresholds(0.99, 0.21, 0.02),
    Converter("Micromaterials2hdf.py") := Thresholds(0.99, 0.5, 0.02),
    Converter("nmd2hdf.py") := Thresholds(0.99, 0.5, 0.007),
    Converter("xls2hdf.py") := Thresholds(0.99, 0.5, 0.02),
    Converter("converter_tdm.py") := Thresholds(0.99, 0.5, 0.04)]

  /** The surface dictionary starts with an empty table of known surface
      indices, keyed by test name. */
  const DefaultSurface: Dict := map["surfaceIdx" := Indices(map[])]

  /** Reads a numeric entry of a dictionary. */
  function NumberAt(d: Dict, key: string): (r: Option<real>)
    ensures r.Some? <==> key in d && d[key].Num?
    ensures r.Some? ==> d[key] == Num(r.value)
  {
    if key in d && d[key].Num? then Some(d[key].r) else None
  }

  /** Reads an entry used as a window size: numpy accepts only a whole
      number there. */
  function IntegerAt(d: Dict, key: string): (r: Option<int>)
    ensures r.Some? <==> NumberAt(d, key).Some? && NumberAt(d, key).value == NumberAt(d, key).value.Floor as real
    ensures r.Some? ==> NumberAt(d, key) == Some(r.value as real)
  {
    match NumberAt(d, key)
    case None => None
    case Some(x) => if x == x.Floor as real then Some(x.Floor) else None
  }

  /** Every vendor has a default entry. */
  lemma EveryVendorHasDefaults(v: Vendor)
    ensures OfVendor(v) in DefaultVendorDependent
  {
  }

  /** What a thresholds table holds. */
  lemma ThresholdsRead(pMax: real, pMin: real, noise: real)
    ensures NumberAt(Thresholds(pMax, pMin, noise), "unloadPMax") == Some(pMax)
    ensures NumberAt(Thresholds(pMax, pMin, noise), "unloadPMin") == Some(pMin)
    ensures Thresholds(pMax, pMin, noise).Keys == {"unloadPMax", "unloadPMin", "relForceNoise"}
  {
    assert "unloadPMax" in Thresholds(pMax, pMin, noise);
  }

  /** The thresholds stored under each key of the vendor table. */
  lemma VendorEntry(k: VendorKey)
    requires k in DefaultVendorDependent
    ensures exists pMax: real, pMin: real, noise: real ::
      DefaultVendorDependent[k] == Thresholds(pMax, pMin, noise) && 0.0 < pMin < pMax < 1.0
  {
    match k {
      case OfVendor(Agilent) => assert DefaultVendorDependent[k] == Thresholds(0.999, 0.5, 0.02);
      case OfVendor(Hysitron) => assert DefaultVendorDependent[k] == Thresholds(0.95, 0.4, 0.2);
      case OfVendor(Micromaterials) => assert DefaultVendorDependent[k] == Thresholds(0.99, 0.5, 0.02);
      case OfVendor(FischerScope) => assert DefaultVendorDependent[k] == Thresholds(0.95, 0.21, 0.01);
      case OfVendor(CommonHDF5) => assert DefaultVendorDependent[k] == Thresholds(0.99, 0.5, 0.02);
      case Converter(script) =>
        if script == "hap2hdf.py" {
          assert DefaultVendorDependent[k] == Thresholds(0.99, 0.21, 0.02);
        } else if script == "nmd2hdf.py" {
          assert DefaultVendorDependent[k] == Thresholds(0.99, 0.5, 0.007);
        } else if script == "converter_tdm.py" {
          assert DefaultVendorDependent[k] == Thresholds(0.99, 0.5, 0.04);
        } else {
          assert DefaultVendorDependent[k] == Thresholds(0.99, 0.5, 0.02);
        }
    }
  }

  /** Every vendor and converter entry admits a non-empty unloading force
      window strictly inside (0, 1) of the peak force. */
  lemma VendorWindowsOrdered(k: VendorKey)
    requires k in DefaultVendorDependent
    ensures NumberAt(DefaultVendorDependent[k], "unloadPMin").Some?
    ensures NumberAt(DefaultVendorDependent[k], "unloadPMax").Some?
    ensures 0.0 < NumberAt(DefaultVendorDependent[k], "unloadPMin").value
              < NumberAt(DefaultVendorDependent[k], "unloadPMax").value < 1.0
  {
    VendorEntry(k);
    var pMax: real, pMin: real, noise: real :|
      DefaultVendorDependent[k] == Thresholds(pMax, pMin, noise) && 0.0 < pMin < pMax < 1.0;
    ThresholdsRead(pMax, pMin, noise);
  }

  /** The default model holds the tip and contact constants of the
      Oliver-Pharr evaluation and nothing that segmentation or stiffness
      evaluation read. */
  lemma DefaultModelValues()
    ensures NumberAt(DefaultModel, "nuTip") == Some(0.07)
    ensures NumberAt(DefaultModel, "modulusTip") == Some(1140.0)
    ensures NumberAt(DefaultModel, "beta") == Some(0.75)
    ensures NumberAt(DefaultModel, "nonMetal") == Some(1.0)
    ensures NumberAt(DefaultModel, "driftRate") == Some(0.0)
    ensures DefaultModel.Keys == {"nuTip", "modulusTip", "beta", "nonMetal", "driftRate"}
  {
  }

  /** The keys the load-hold-unload segmentation and the stiffness
      evaluation look up are provided by no default table: the vendor
      tables name a noise level `relForceNoise` that nothing reads. */
  lemma SegmentationKeysNotDefaulted(k: VendorKey)
    requires k in DefaultVendorDependent
    ensures DefaultVendorDependent[k].Keys == {"unloadPMax", "unloadPMin", "relForceNoise"}
    ensures "relForceRateNoise" !in DefaultVendorDependent[k] && "relForceRateNoise" !in DefaultModel
    ensures "forceNoise" !in DefaultVendorDependent[k] && "forceNoise" !in DefaultModel
    ensures "maxSizeFluctuations" !in DefaultVendorDependent[k] && "maxSizeFluctuations" !in DefaultModel
    ensures "evaluateSAtMax" !in DefaultVendorDependent[k] && "evaluateSAtMax" !in DefaultModel
  {
    VendorEntry(k);
    var pMax: real, pMin: real, noise: real :| DefaultVendorDependent[k] == Thresholds(pMax, pMin, noise);
    ThresholdsRead(pMax, pMin, noise);
  }
}
