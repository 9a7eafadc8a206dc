/** Configuration and traversal: the parameter dictionary shared by
    reference, the file-extension chain that picks a vendor, the merge of
    vendor defaults into the model dictionary, the thresholds the split
    packages store per vendor, and the state machine of the test iterator. */
module Configuration {
  import opened Numerics
  import opened Definitions

  /** A dictionary object: Python binds names to it by reference, so two
      names can denote the same table. */
  class ParameterTable {
    var entries: Dict

    constructor (entries: Dict)
      ensures this.entries == entries
    {
      this.entries := entries;
    }

    /** The loop of fillVendorDefaults over the vendor table `d`: each key
        takes the user's value, else keeps the value already present, else
        takes the vendor default. */
    method FillDefaults(user: Dict, d: Dict)
      modifies this
      ensures entries == Filled(old(entries), user, d)
    {
      var remaining := d.Keys;
      ghost var done: set<string> := {};
      while remaining != {}
        invariant done + remaining == d.Keys && done !! remaining
        invariant entries == Filled(old(entries), user, Restrict(d, done))
        decreases remaining
      {
        var k :| k in remaining;
        FilledOneMore(old(entries), user, d, done, k);
        if k in user {
          entries := entries[k := user[k]];
        } else if k !in entries {
          entries := entries[k := d[k]];
        }
        remaining := remaining - {k};
        done := done + {k};
      }
      assert Restrict(d, done) == d;
    }
  }

  /** The part of a dictionary whose keys lie in `keys`. */
  function Restrict(d: Dict, keys: set<string>): (r: Dict)
    ensures r.Keys == d.Keys * keys
    ensures forall k :: k in r ==> r[k] == d[k]
  {
    map k | k in d.Keys * keys :: d[k]
  }

  /** Filling one more key of the table changes only that key. */
  lemma FilledOneMore(model: Dict, user: Dict, d: Dict, done: set<string>, k: string)
    requires k in d && k !in done
    ensures var before := Filled(model, user, Restrict(d, done));
      Filled(model, user, Restrict(d, done + {k}))
        == before[k := if k in user then user[k] else if k in before then before[k] else d[k]]
  {
    var before := Filled(model, user, Restrict(d, done));
    var after := Filled(model, user, Restrict(d, done + {k}));
    var expected := before[k := if k in user then user[k] else if k in before then before[k] else d[k]];
    FilledOneMoreKeys(model, user, d, done, k);
    forall j | j in after
      ensures after[j] == expected[j]
    {
      FilledOneMoreAt(model, user, d, done, k, j);
    }
    SameEntries(after, expected);
  }

  /** Two dictionaries with the same keys and values are equal. */
  lemma SameEntries(a: Dict, b: Dict)
    requires a.Keys == b.Keys && forall j :: j in a ==> a[j] == b[j]
    ensures a == b
  {
  }

  lemma FilledOneMoreKeys(model: Dict, user: Dict, d: Dict, done: set<string>, k: string)
    requires k in d && k !in done
    ensures Filled(model, user, Restrict(d, done + {k})).Keys == Filled(model, user, Restrict(d, done)).Keys + {k}
  {
    assert Restrict(d, done + {k}).Keys == Restrict(d, done).Keys + {k};
  }

  lemma FilledOneMoreAt(model: Dict, user: Dict, d: Dict, done: set<string>, k: string, j: string)
    requires k in d && k !in done
    requires j in Filled(model, user, Restrict(d, done + {k}))
    ensures var before := Filled(model, user, Restrict(d, done));
      Filled(model, user, Restrict(d, done + {k}))[j]
        == if j == k then (if k in user then user[k] else if k in before then before[k] else d[k]) else before[j]
  {
    var before := Filled(model, user, Restrict(d, done));
    assert k in before <==> k in model;
    if j != k {
      assert j in Restrict(d, done + {k}) <==> j in Restrict(d, done);
    }
  }

  predicate EndsWith(s: string, suffix: string)
  {
    |suffix| <= |s| && s[|s| - |suffix|..] == suffix
  }

  // ----- The extension chain -----

  /** The vendors whose branch of the constructor matches the file name,
      in the order of the branches. The constructor tries them in this
      order, each only while the previous loaders failed. */
  function Attempts(fileName: string): (r: seq<Vendor>)
    ensures (EndsWith(fileName, ".xls") || EndsWith(fileName, ".xlsx")) <==> Agilent in r
    ensures (EndsWith(fileName, ".hld") || EndsWith(fileName, ".txt")) <==> Hysitron in r
    ensures (EndsWith(fileName, ".txt") || EndsWith(fileName, ".zip")) <==> Micromaterials in r
    ensures EndsWith(fileName, ".txt") <==> FischerScope in r
    ensures EndsWith(fileName, ".hdf5") <==> CommonHDF5 in r
  {
    (if EndsWith(fileName, ".xls") || EndsWith(fileName, ".xlsx") then [Agilent] else [])
    + (if EndsWith(fileName, ".hld") || EndsWith(fileName, ".txt") then [Hysitron] else [])
    + (if EndsWith(fileName, ".txt") || EndsWith(fileName, ".zip") then [Micromaterials] else [])
    + (if EndsWith(fileName, ".txt") then [FischerScope] else [])
    + (if EndsWith(fileName, ".hdf5") then [CommonHDF5] else [])
  }

  /** The chain as the newest package writes it: its HDF5 branch names
      `Vendor.Hdf5`, a member the enumeration lacks (`None`), so reaching
      that branch raises an `AttributeError`. */
  function AttemptsAsWritten(fileName: string): (r: seq<Option<Vendor>>)
    ensures |r| == |Attempts(fileName)|
  {
    seq(|Attempts(fileName)|, i requires 0 <= i < |Attempts(fileName)| =>
      if Attempts(fileName)[i] == CommonHDF5 then None else Some(Attempts(fileName)[i]))
  }

  /** An HDF5 file reaches only the HDF5 branch: as written it raises
      there, where the split package chooses `CommonHDF5`. No other
      extension reaches the missing member. */
  lemma Hdf5BranchRaises(fileName: string)
    ensures EndsWith(fileName, ".hdf5") ==> AttemptsAsWritten(fileName) == [None] && Attempts(fileName) == [CommonHDF5]
    ensures !EndsWith(fileName, ".hdf5") ==>
      forall i :: 0 <= i < |AttemptsAsWritten(fileName)| ==> AttemptsAsWritten(fileName)[i] == Some(Attempts(fileName)[i])
  {
    if EndsWith(fileName, ".hdf5") {
      assert fileName[|fileName| - 5..][4] == '5';
      forall suffix | suffix in [".xls", ".xlsx", ".hld", ".txt", ".zip"]
        ensures !EndsWith(fileName, suffix)
      {
        if |suffix| <= |fileName| {
          assert fileName[|fileName| - |suffix|..][|suffix| - 1] == '5' != suffix[|suffix| - 1];
        }
      }
    }
  }

  /** The branches the constructor reaches: none when the named file is
      missing (an empty name passes that check and matches no branch). */
  function Tried(fileName: string, fileExists: bool): (r: seq<Vendor>)
    ensures !fileExists && fileName != "" ==> r == []
    ensures fileExists ==> r == Attempts(fileName)
  {
    if !fileExists && fileName != "" then [] else Attempts(fileName)
  }

  /** The file type each branch records. */
  function FileTypeFor(v: Vendor, fileName: string): FileType
  {
    match v
    case Agilent => Multi
    case Hysitron => Single
    case Micromaterials => if EndsWith(fileName, ".txt") then Single else Multi
    case FischerScope => Multi
    case CommonHDF5 => Multi
  }

  /** The vendor the chain ends with: the first whose loader succeeds, or
      the last one tried when all fail; `None` when no branch matches. */
  function Chosen(attempts: seq<Vendor>, load: Vendor -> bool): (r: Option<Vendor>)
    ensures r.None? <==> attempts == []
    ensures r.Some? ==> r.value in attempts
    ensures r.Some? && !load(r.value) ==> r.value == attempts[|attempts| - 1]
    ensures r.Some? && !load(r.value) ==> forall i :: 0 <= i < |attempts| ==> !load(attempts[i])
    ensures r.Some? && load(r.value) ==>
      exists i :: 0 <= i < |attempts| && attempts[i] == r.value && forall j :: 0 <= j < i ==> !load(attempts[j])
    decreases |attempts|
  {
    if attempts == [] then None
    else if load(attempts[0]) || |attempts| == 1 then Some(attempts[0])
    else
      var rest := Chosen(attempts[1..], load);
      assert forall x :: x in attempts[1..] ==> x in attempts;
      assert load(rest.value) ==>
        exists i :: 0 <= i < |attempts| && attempts[i] == rest.value && forall j :: 0 <= j < i ==> !load(attempts[j]) by {
        if load(rest.value) {
          var i :| 0 <= i < |attempts[1..]| && attempts[1..][i] == rest.value && forall j :: 0 <= j < i ==> !load(attempts[1..][j]);
          assert attempts[i + 1] == rest.value && forall j :: 0 <= j < i + 1 ==> !load(attempts[j]);
        }
      }
      rest
  }

  /** The vendor at index i is chosen when every earlier loader failed
      and its own loader succeeds or it is the last one tried. */
  lemma {:induction false} ChosenAt(attempts: seq<Vendor>, load: Vendor -> bool, i: nat)
    requires i < |attempts|
    requires forall j :: 0 <= j < i ==> !load(attempts[j])
    requires load(attempts[i]) || i == |attempts| - 1
    ensures Chosen(attempts, load) == Some(attempts[i])
    decreases i
  {
    if i > 0 {
      ChosenAt(attempts[1..], load, i - 1);
    }
  }

  // ----- Vendor defaults -----

  /** fillVendorDefaults for one vendor table `d`: a key the user chose
      takes the user's value, a key already in the model keeps its value,
      and any other key takes the vendor default; keys outside the table
      are left alone. */
  function Filled(model: Dict, user: Dict, d: Dict): (r: Dict)
    ensures r.Keys == model.Keys + d.Keys
    ensures forall k :: k in d && k in user ==> r[k] == user[k]
    ensures forall k :: k in d && k !in user && k in model ==> r[k] == model[k]
    ensures forall k :: k in d && k !in user && k !in model ==> r[k] == d[k]
    ensures forall k :: k in model && k !in d ==> r[k] == model[k]
  {
    map k | k in model.Keys + d.Keys :: if k in d && k in user then user[k] else if k in model then model[k] else d[k]
  }

  /** Filling twice with the same table changes nothing more. */
  lemma FilledIdempotent(model: Dict, user: Dict, d: Dict)
    ensures Filled(Filled(model, user, d), user, d) == Filled(model, user, d)
  {
  }

  /** The default table of a vendor. */
  function VendorDefaults(v: Vendor): (d: Dict)
    ensures OfVendor(v) in DefaultVendorDependent && d == DefaultVendorDependent[OfVendor(v)]
  {
    EveryVendorHasDefaults(v);
    DefaultVendorDependent[OfVendor(v)]
  }

  /** The branches tried in order until a reader succeeds; the vendor the
      chain ends with. */
  method ChooseVendor(tried: seq<Vendor>, load: Vendor -> bool) returns (chosen: Option<Vendor>)
    ensures chosen == Chosen(tried, load)
  {
    chosen := None;
    var success := false;
    var i := 0;
    while i < |tried| && !success
      invariant 0 <= i <= |tried|
      invariant chosen == if i == 0 then None else Some(tried[i - 1])
      invariant success == (i > 0 && load(tried[i - 1]))
      invariant forall j :: 0 <= j < i - 1 ==> !load(tried[j])
    {
      chosen := Some(tried[i]);
      success := load(tried[i]);
      i := i + 1;
    }
    if i > 0 {
      ChosenAt(tried, load, i - 1);
    }
  }

  /** How the extension chain as written ends: raised in the HDF5 branch,
      or with the model table after it and the vendor it ends with. */
  datatype ChainEnd = ChainRaised | ChainEnded(entries: Dict, chosen: Option<Vendor>)

  function ChainAsWritten(model: Dict, user: Dict, fileName: string, load: Vendor -> bool): ChainEnd
  {
    if EndsWith(fileName, ".hdf5") then ChainRaised
    else ChainEnded(FillChain(model, user, Attempts(fileName), load), Chosen(Attempts(fileName), load))
  }

  /** The extension chain as written, on the model table: each branch
      reached fills its vendor's defaults before its reader is tried, and
      the HDF5 branch names a vendor the enumeration lacks and raises
      before it fills anything. */
  method FillAlongChain(table: ParameterTable, user: Dict, fileName: string, load: Vendor -> bool)
    returns (r: ChainEnd)
    modifies table
    ensures r == ChainAsWritten(old(table.entries), user, fileName, load)
    ensures r.ChainRaised? ==> table.entries == old(table.entries)
    ensures r.ChainEnded? ==> table.entries == r.entries
  {
    Hdf5BranchRaises(fileName);
    r := FillBranches(table, user, Attempts(fileName), AttemptsAsWritten(fileName), load);
  }

  /** The loop over the branches a file name reaches: `attempts` holds the
      vendor each branch names, `None` for the missing member. */
  method FillBranches(table: ParameterTable, user: Dict, tried: seq<Vendor>, attempts: seq<Option<Vendor>>,
                      load: Vendor -> bool)
    returns (r: ChainEnd)
    requires |attempts| == |tried|
    requires attempts == [None] || forall i :: 0 <= i < |attempts| ==> attempts[i] == Some(tried[i])
    modifies table
    ensures attempts == [None] ==> r == ChainRaised && table.entries == old(table.entries)
    ensures attempts != [None] ==>
      r == ChainEnded(FillChain(old(table.entries), user, tried, load), Chosen(tried, load))
      && table.entries == r.entries
  {
    var chosen := None;
    var success := false;
    var i := 0;
    while i < |attempts| && !success
      invariant 0 <= i <= |attempts|
      invariant chosen == if i == 0 then None else Some(tried[i - 1])
      invariant success == (i > 0 && load(tried[i - 1]))
      invariant forall j :: 0 <= j < i - 1 ==> !load(tried[j])
      invariant !success ==> FillChain(old(table.entries), user, tried, load) == FillChain(table.entries, user, tried[i..], load)
      invariant success ==> table.entries == FillChain(old(table.entries), user, tried, load)
      invariant attempts == [None] ==> i == 0
      invariant i == 0 ==> table.entries == old(table.entries)
    {
      if attempts[i].None? {
        return ChainRaised;
      }
      var v := attempts[i].value;
      FillChainStep(table.entries, user, tried, load, i);
      chosen := Some(v);
      table.FillDefaults(user, VendorDefaults(v));
      success := load(v);
      i := i + 1;
    }
    if i > 0 {
      ChosenAt(tried, load, i - 1);
    }
    r := ChainEnded(table.entries, chosen);
  }

  /** The model after the chain as written: every vendor tried, up to the
      chosen one, fills its defaults in turn. */
  function FillChain(model: Dict, user: Dict, attempts: seq<Vendor>, load: Vendor -> bool): Dict
    decreases |attempts|
  {
    if attempts == [] then model
    else
      var filled := Filled(model, user, VendorDefaults(attempts[0]));
      if load(attempts[0]) then filled else FillChain(filled, user, attempts[1..], load)
  }

  /** One step of the chain as written. */
  lemma FillChainStep(model: Dict, user: Dict, attempts: seq<Vendor>, load: Vendor -> bool, i: nat)
    requires i < |attempts|
    ensures var filled := Filled(model, user, VendorDefaults(attempts[i]));
      FillChain(model, user, attempts[i..], load)
        == if load(attempts[i]) then filled else FillChain(filled, user, attempts[i + 1..], load)
  {
    assert attempts[i..][0] == attempts[i] && attempts[i..][1..] == attempts[i + 1..];
  }

  /** The model after the chain as intended: only the vendor that reads
      the file fills its defaults. */
  function FillChosen(model: Dict, user: Dict, attempts: seq<Vendor>, load: Vendor -> bool): Dict
  {
    match Chosen(attempts, load)
    case None => model
    case Some(v) => Filled(model, user, VendorDefaults(v))
  }

  /** A loader outcome: only the Micromaterials reader accepts the file. */
  predicate OnlyMicromaterialsReads(v: Vendor)
  {
    v == Micromaterials
  }

  /** A Micromaterials text file read with the default model: the
      Hysitron branch is tried first and fails, and the chain as written
      keeps Hysitron's force window 0.95 / 0.4, where the vendor that reads
      the file defaults to 0.99 / 0.5. */
  lemma FirstVendorDefaultsStick()
    ensures var chain := FillChain(DefaultModel, map[], Attempts("test.txt"), OnlyMicromaterialsReads);
      var chosen := FillChosen(DefaultModel, map[], Attempts("test.txt"), OnlyMicromaterialsReads);
      NumberAt(chain, "unloadPMax") == Some(0.95) && NumberAt(chain, "unloadPMin") == Some(0.4) &&
      NumberAt(chosen, "unloadPMax") == Some(0.99) && NumberAt(chosen, "unloadPMin") == Some(0.5)
  {
    TextFileAttempts();
    ChainKeepsHysitronWindow();
    ChosenTakesMicromaterialsWindow();
  }

  lemma ChainKeepsHysitronWindow()
    ensures var chain := FillChain(DefaultModel, map[], [Hysitron, Micromaterials, FischerScope], OnlyMicromaterialsReads);
      NumberAt(chain, "unloadPMax") == Some(0.95) && NumberAt(chain, "unloadPMin") == Some(0.4)
  {
    var tried := [Hysitron, Micromaterials, FischerScope];
    var hysitron := VendorDefaults(Hysitron);
    assert hysitron == Thresholds(0.95, 0.4, 0.2);
    assert "unloadPMax" !in DefaultModel && "unloadPMin" !in DefaultModel by {
      DefaultModelValues();
    }
    var afterHysitron := Filled(DefaultModel, map[], hysitron);
    assert afterHysitron["unloadPMax"] == Num(0.95) && afterHysitron["unloadPMin"] == Num(0.4);
    ChainStopsAtSecond(DefaultModel, map[], tried, OnlyMicromaterialsReads);
  }

  /** A chain whose second reader is the first to succeed has filled the
      defaults of both vendors, in order. */
  lemma ChainStopsAtSecond(model: Dict, user: Dict, attempts: seq<Vendor>, load: Vendor -> bool)
    requires |attempts| >= 2 && !load(attempts[0]) && load(attempts[1])
    ensures FillChain(model, user, attempts, load)
      == Filled(Filled(model, user, VendorDefaults(attempts[0])), user, VendorDefaults(attempts[1]))
  {
    assert attempts[1..][0] == attempts[1];
  }

  lemma ChosenTakesMicromaterialsWindow()
    ensures var chosen := FillChosen(DefaultModel, map[], [Hysitron, Micromaterials, FischerScope], OnlyMicromaterialsReads);
      NumberAt(chosen, "unloadPMax") == Some(0.99) && NumberAt(chosen, "unloadPMin") == Some(0.5)
  {
    var tried := [Hysitron, Micromaterials, FischerScope];
    assert Chosen(tried[1..], OnlyMicromaterialsReads) == Some(Micromaterials);
    assert Chosen(tried, OnlyMicromaterialsReads) == Some(Micromaterials);
    var micro := VendorDefaults(Micromaterials);
    assert micro == Thresholds(0.99, 0.5, 0.02);
    assert "unloadPMax" !in DefaultModel && "unloadPMin" !in DefaultModel by {
      DefaultModelValues();
    }
    var chosen := Filled(DefaultModel, map[], micro);
    assert chosen["unloadPMax"] == Num(0.99) && chosen["unloadPMin"] == Num(0.5);
  }

  /** A text file is tried as Hysitron, Micromaterials and FischerScope. */
  lemma TextFileAttempts()
    ensures Attempts("test.txt") == [Hysitron, Micromaterials, FischerScope]
  {
    assert "test.txt"[4..] == ".txt";
    assert "test.txt"[3..] != ".xlsx" && "test.txt"[4..] != ".xls" && "test.txt"[3..] != ".hdf5";
    assert "test.txt"[4..] != ".hld" && "test.txt"[4..] != ".zip";
  }

  /** The intended chain leaves the user's choices in place and gives
      every other threshold the default of the vendor that reads the
      file. */
  lemma FillChosenUsesChosenVendor(model: Dict, user: Dict, attempts: seq<Vendor>, load: Vendor -> bool, k: string)
    requires Chosen(attempts, load).Some?
    requires k in VendorDefaults(Chosen(attempts, load).value)
    requires k !in model
    ensures var r := FillChosen(model, user, attempts, load);
      k in r && r[k] == if k in user then user[k] else VendorDefaults(Chosen(attempts, load).value)[k]
  {
  }

  // ----- Thresholds of the split packages -----

  /** The attributes (unloadPMax, unloadPMin, zeroGradDelta) each branch
      of the split package's constructor assigns. The older split package
      assigns the same two force levels and no zeroGradDelta. */
  function SplitThresholds(v: Vendor): (r: (real, real, real))
    ensures 0.0 < r.1 < r.0 < 1.0 && 0.0 < r.2
  {
    match v
    case Agilent => (0.999, 0.5, 0.02)
    case Hysitron => (0.95, 0.4, 0.2)
    case Micromaterials => (0.99, 0.5, 0.02)
    case FischerScope => (0.95, 0.21, 0.01)
    case CommonHDF5 => (0.99, 0.5, 0.02)
  }

  /** The newest package's vendor table repeats the split package's
      per-vendor constants, and its noise level `relForceNoise` is the old
      `zeroGradDelta` under a new name. */
  lemma SplitThresholdsInVendorTable(v: Vendor)
    ensures NumberAt(VendorDefaults(v), "unloadPMax") == Some(SplitThresholds(v).0)
    ensures NumberAt(VendorDefaults(v), "unloadPMin") == Some(SplitThresholds(v).1)
    ensures NumberAt(VendorDefaults(v), "relForceNoise") == Some(SplitThresholds(v).2)
  {
  }

  /** The setup the split packages' constructors end with: nothing when the
      file is missing, else the chosen vendor, its file type and its
      thresholds (the loaders overwrite what earlier branches set). */
  function SplitSetup(fileName: string, fileExists: bool, load: Vendor -> bool): (r: Option<(Vendor, FileType, (real, real, real))>)
    ensures !fileExists && fileName != "" ==> r.None?
    ensures r.Some? ==> r.value.0 in Attempts(fileName) && r.value.2 == SplitThresholds(r.value.0)
    ensures (fileExists || fileName == "") && (exists i :: 0 <= i < |Attempts(fileName)| && load(Attempts(fileName)[i])) ==>
      r.Some? && load(r.value.0)
  {
    if !fileExists && fileName != "" then None
    else
      match Chosen(Attempts(fileName), load)
      case None => None
      case Some(v) => Some((v, FileTypeFor(v, fileName), SplitThresholds(v)))
  }

  /** The attributes the split packages' constructors set before any file
      is read: the test method, the tip constants, beta, where the
      unloading stiffness is evaluated, and the filter of the force rate. */
  datatype SplitAttributes = SplitAttributes(testMethod: Method, nuTip: real, modulusTip: real, beta: real,
                                             evaluateStiffnessAtMax: bool, zeroGradFilter: string)

  /** The split package's constructor defaults: an ISO test, the stiffness
      at the maximum and the median filter. */
  const SplitDefaults: SplitAttributes := SplitAttributes(ISO, 0.07, 1140.0, 0.75, true, "median")

  /** The split package starts from the tip constants and beta that the
      newest package keeps in its default model. */
  lemma SplitDefaultsAgreeWithModel()
    ensures NumberAt(DefaultModel, "nuTip") == Some(SplitDefaults.nuTip)
    ensures NumberAt(DefaultModel, "modulusTip") == Some(SplitDefaults.modulusTip)
    ensures NumberAt(DefaultModel, "beta") == Some(SplitDefaults.beta)
  {
    DefaultModelValues();
  }

  // ----- The test iterator -----

  /** What one call of `__next__` gives: the name of the current test or
      `StopIteration`. */
  datatype Step = Yield(name: string) | Stop

  /** One `__next__` of the newest package, from whether the test list is
      non-empty, the `newFileRead` flag, what `nextTest` replies (the next
      test's name, or `None` for a falsy reply) and the current name, to
      the step, the new flag and the new name. */
  function NextStep(hasTests: bool, justRead: bool, read: Option<string>, name: string): (r: (Step, bool, string))
    ensures !hasTests ==> r == (Stop, justRead, name)
    ensures hasTests && justRead ==> r == (Yield(name), false, name)
    ensures hasTests && !justRead ==> !r.1 && (r.0 == Stop <==> read.None?)
    ensures hasTests && !justRead && read.Some? ==> r.0 == Yield(read.value) && r.2 == read.value
  {
    if !hasTests then (Stop, justRead, name)
    else if justRead then (Yield(name), false, name)
    else
      match read
      case None => (Stop, false, name)
      case Some(next) => (Yield(next), false, next)
  }

  /** The names a `for` loop over the object yields after `__iter__`:
      repeated `NextStep` calls until the first `Stop`, with `replies` the
      replies of the successive `nextTest` calls. */
  function Traversal(hasTests: bool, justRead: bool, name: string, replies: seq<Option<string>>): seq<string>
    decreases |replies|, justRead
  {
    var r := NextStep(hasTests, justRead, if replies == [] then None else replies[0], name);
    match r.0
    case Stop => []
    case Yield(n) =>
      if justRead then [n] + Traversal(hasTests, r.1, r.2, replies)
      else if replies == [] then [n]
      else [n] + Traversal(hasTests, r.1, r.2, replies[1..])
  }

  /** The names read before the first falsy reply. */
  function ReadNames(replies: seq<Option<string>>): seq<string>
  {
    if replies == [] || replies[0].None? then [] else [replies[0].value] + ReadNames(replies[1..])
  }

  /** A traversal right after `__iter__` yields the current test first,
      then every test `nextTest` moves to, and stops at its first falsy
      reply; an empty test list yields nothing. */
  lemma {:induction false} TraversalYieldsCurrentThenRead(hasTests: bool, name: string, replies: seq<Option<string>>)
    ensures Traversal(hasTests, true, name, replies) == if hasTests then [name] + ReadNames(replies) else []
  {
    if hasTests {
      TraversalAfterFirst(name, replies);
    }
  }

  lemma {:induction false} TraversalAfterFirst(name: string, replies: seq<Option<string>>)
    ensures Traversal(true, false, name, replies) == ReadNames(replies)
    decreases |replies|
  {
    if replies != [] && replies[0].Some? {
      if |replies| > 1 {
        TraversalAfterFirst(replies[0].value, replies[1..]);
      } else {
        assert replies[1..] == [];
      }
    }
  }

  /** One `__next__` of the split package: the reply of `nextTest` is
      ignored, so the iteration only stops on an empty test list; a failed
      read leaves the name as it was. */
  function NextStepSplit(hasTests: bool, justRead: bool, read: Option<string>, name: string): (r: (Step, bool, string))
    ensures !hasTests <==> r.0 == Stop
    ensures hasTests && justRead ==> r == (Yield(name), false, name)
    ensures hasTests && !justRead ==> r == (Yield(r.2), justRead, r.2) && r.2 == (if read.Some? then read.value else name)
  {
    if !hasTests then (Stop, justRead, name)
    else if justRead then (Yield(name), false, name)
    else
      var next := if read.Some? then read.value else name;
      (Yield(next), false, next)
  }
}
