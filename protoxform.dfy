/** The protoxform visitor of tools/protoxform/protoxform.py: it produces
    the "active or frozen" and the next-major-version-candidate copies of a
    file descriptor, and decides the package version status of the copy.

    The type database is not modelled: its `next_version_protos` table is
    the parameter `nextVersionProtos`, the set of file names that have a
    next major version. */
module Protoxform {
  import opened Wrappers
  import opened Descriptor
  import opened Strings
  import Plugin

  /** The exceptions the visitor raises. */
  datatype XformError =
    | KeyError(key: string)                        // a params key the constructor reads is missing
    | PackageVersionStatusUnset(fileName: string)  // ProtoXformError: status must be set
    | AssertionFailed                              // the status is neither ACTIVE nor FROZEN where it must be

  /** The name prefix of the annotation files, which carry no status. */
  const AnnotationsPrefix := "envoy/annotations"

  /** A file is exempt from the status check when it lies under
      envoy/annotations or declares no service, enum or message (counted by
      the number of artifacts the traversal hands to `visit_file`). */
  predicate PackageVersionStatusExempt(fileName: string, services: nat, msgs: nat, enums: nat) {
    StartsWith(fileName, AnnotationsPrefix) || (services == 0 && enums == 0 && msgs == 0)
  }

  /** `ProtoFormatVisitor`: `activeOrFrozen` tells the active-or-frozen
      output (true) from a next-major-version candidate (false); `freeze`
      asks for packages with a next major version to be frozen. */
  datatype ProtoFormatVisitor = ProtoFormatVisitor(activeOrFrozen: bool, freeze: bool) {

    /** Services produce no artifact. */
    function VisitService(service: ServiceProto): (r: Option<string>)
      ensures r == None
    {
      None
    }

    /** Enums produce no artifact. */
    function VisitEnum(enum: EnumProto): (r: Option<string>)
      ensures r == None
    {
      None
    }

    /** Messages produce no artifact, whatever their nested artifacts. */
    function VisitMessage(msg: MessageProto, nestedMsgs: seq<Option<string>>, nestedEnums: seq<Option<string>>): (r: Option<string>)
      ensures r == None
    {
      None
    }

    /** The package version status the output copy gets. An unset status
        on a non-exempt file is a format error whichever output is being
        produced; only the active-or-frozen output of a non-exempt file
        changes the status, and then only to ACTIVE or FROZEN. */
    function DecideStatus(fileName: string, existing: VersionStatus, exempt: bool, hasNextVersion: bool): (r: Result<VersionStatus, XformError>)
      ensures r == Err(PackageVersionStatusUnset(fileName)) <==> existing == Unknown && !exempt
      ensures r == Err(AssertionFailed) <==>
        !exempt && activeOrFrozen && !(freeze && hasNextVersion) && existing == NextMajorVersionCandidate
      ensures exempt || (!activeOrFrozen && existing != Unknown) ==> r == Ok(existing)
      ensures !exempt && activeOrFrozen && existing != Unknown && freeze && hasNextVersion ==> r == Ok(Frozen)
      ensures !exempt && activeOrFrozen && existing == Active && !(freeze && hasNextVersion) ==> r == Ok(Active)
      ensures existing == Frozen && !exempt ==> r == Ok(Frozen)
      ensures r.Ok? && activeOrFrozen && !exempt ==> r.value == Active || r.value == Frozen
      ensures r.Ok? && r.value == Frozen ==> existing == Frozen || (activeOrFrozen && freeze && hasNextVersion)
    {
      if existing == Unknown && !exempt then Err(PackageVersionStatusUnset(fileName))
      else if activeOrFrozen && !exempt then
        if freeze && hasNextVersion then Ok(Frozen)
        else if existing == Frozen then Ok(Frozen)
        else if existing == Active then Ok(Active)
        else assert existing == NextMajorVersionCandidate; Err(AssertionFailed)
      else Ok(existing)
    }

    /** `visit_file`: takes a copy of the file descriptor and, for the
        active-or-frozen output of a non-exempt file, writes the decided
        status into the copy. The input is a value and is never changed;
        the copy differs from it at most in its status. */
    method VisitFile<A>(file: FileProto, services: seq<A>, msgs: seq<A>, enums: seq<A>, nextVersionProtos: set<string>)
      returns (r: Result<FileProto, XformError>)
      ensures r.Ok? ==> r.value == file.(status := r.value.status)
      ensures var exempt := PackageVersionStatusExempt(file.name, |services|, |msgs|, |enums|);
        match DecideStatus(file.name, file.status, exempt, file.name in nextVersionProtos)
        case Ok(status) => r == Ok(file.(status := status))
        case Err(e) => r == Err(e)
    {
      var output := file;
      var existing := output.status;
      var emptyFile := |services| == 0 && |enums| == 0 && |msgs| == 0;
      var exempt := StartsWith(file.name, AnnotationsPrefix) || emptyFile;
      if existing == Unknown && !exempt {
        return Err(PackageVersionStatusUnset(file.name));
      }
      if activeOrFrozen && !exempt {
        var target: VersionStatus;
        if freeze && output.name in nextVersionProtos {
          target := Frozen;
        } else if existing == Frozen {
          target := Frozen;
        } else {
          if existing != Active {
            return Err(AssertionFailed);
          }
          target := Active;
        }
        output := output.(status := target);
      }
      return Ok(output);
    }
  }

  /** `ProtoFormatVisitor(active_or_frozen, params)`: `params` must hold
      `type_db_path` (loading the type database it names is not modelled);
      the freeze flag is set exactly when `extra_args` is `freeze`. */
  function NewProtoFormatVisitor(activeOrFrozen: bool, params: Plugin.Params): (r: Result<ProtoFormatVisitor, XformError>)
    ensures r.Err? <==> "type_db_path" !in params
    ensures r.Err? ==> r.error == KeyError("type_db_path")
    ensures r.Ok? ==> r.value.activeOrFrozen == activeOrFrozen
    ensures r.Ok? ==> (r.value.freeze <==> "extra_args" in params && params["extra_args"] == "freeze")
  {
    if "type_db_path" !in params then Err(KeyError("type_db_path"))
    else Ok(ProtoFormatVisitor(activeOrFrozen, "extra_args" in params && params["extra_args"] == "freeze"))
  }

  // ---------------------------------------------------------------------
  // Properties of the status decision

  /** Deciding again on the decided status changes nothing: a second run of
      the same visitor over its own output gives the same status. */
  lemma DecideStatusIdempotent(v: ProtoFormatVisitor, fileName: string, existing: VersionStatus, exempt: bool,
                               hasNextVersion: bool, status: VersionStatus)
    requires v.DecideStatus(fileName, existing, exempt, hasNextVersion) == Ok(status)
    ensures v.DecideStatus(fileName, status, exempt, hasNextVersion) == Ok(status)
  {
  }

  /** FROZEN is sticky: a frozen file comes out frozen from every visitor,
      exempt or not, with or without a next major version. */
  lemma FrozenIsSticky(fileName: string, exempt: bool, hasNextVersion: bool, freeze: bool, activeOrFrozen: bool)
    ensures ProtoFormatVisitor(activeOrFrozen, freeze).DecideStatus(fileName, Frozen, exempt, hasNextVersion) == Ok(Frozen)
  {
  }

  /** The visitor's verdict depends on the traversal's artifacts only
      through their number: a file is exempt from the status check when its
      name lies under envoy/annotations or it declares nothing, provided the
      traversal hands over one artifact per top-level declaration. */
  lemma ExemptByDeclarations<A>(file: FileProto, services: seq<A>, msgs: seq<A>, enums: seq<A>)
    requires |services| == |file.services| && |msgs| == |file.messages| && |enums| == |file.enums|
    ensures PackageVersionStatusExempt(file.name, |services|, |msgs|, |enums|) <==>
      StartsWith(file.name, AnnotationsPrefix) || (file.services == [] && file.messages == [] && file.enums == [])
  {
  }

  /** The freeze flag, read from the plugin's parameter string: it is set
      exactly when the last `extra_args=...` piece of the parameter is
      `extra_args=freeze`. */
  lemma FreezeFromParameter(activeOrFrozen: bool, parameter: string, params: Plugin.Params, v: ProtoFormatVisitor)
    requires Plugin.ParseParams(parameter) == Ok(params)
    requires NewProtoFormatVisitor(activeOrFrozen, params) == Ok(v)
    ensures v.freeze <==>
      var pieces := Split(parameter, ',');
      exists i :: 0 <= i < |pieces| && Plugin.Key(pieces[i]) == "extra_args" && Plugin.LastWithKey(pieces, i) &&
        Plugin.Value(pieces[i]) == "freeze"
  {
    var pieces := Split(parameter, ',');
    Plugin.BuildParamsContents(pieces, params);
    if "extra_args" in params {
      var i :| 0 <= i < |pieces| && Plugin.Key(pieces[i]) == "extra_args";
      var last := LastIndexWithKey(pieces, i);
      assert Plugin.LastWithKey(pieces, last);
      if v.freeze {
        assert Plugin.Value(pieces[last]) == "freeze";
      }
    }
  }

  /** Some piece with the same key as piece `i` is the last one with it. */
  lemma {:induction false} LastIndexWithKey(pieces: seq<string>, i: nat) returns (last: nat)
    requires i < |pieces|
    ensures i <= last < |pieces| && Plugin.Key(pieces[last]) == Plugin.Key(pieces[i]) && Plugin.LastWithKey(pieces, last)
    decreases |pieces| - i
  {
    if Plugin.LastWithKey(pieces, i) {
      last := i;
    } else {
      var j :| i < j < |pieces| && Plugin.Key(pieces[j]) == Plugin.Key(pieces[i]);
      last := LastIndexWithKey(pieces, j);
    }
  }
}
