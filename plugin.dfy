/** The protoc plugin driver of tools/api_proto_plugin/plugin.py: output
    descriptors, the parameter string, and the assembly of the response list
    from the requested files.

    The callbacks the driver does not define are parameters here: each
    descriptor's `xform` and `visitor_factory`, `traverse.traverse_file`
    (`traverse`, which may raise: `Err(message)`) and the text rendering
    `str(file_proto)` (`render`). */
module Plugin {
  import opened Wrappers
  import opened Descriptor
  import opened Strings

  /** The dictionary built from the request's `parameter` string. */
  type Params = map<string, string>

  /** The exceptions the driver can raise. */
  datatype PluginError =
    | IndexError(fileToGenerate: string)  // no proto_file carries the requested name
    | ValueError(piece: string)           // a parameter piece is not of the form key=value
    | TypeError                           // a callback was called with the wrong number of arguments
    | Raised(message: string)             // raised inside traverse_file (by the visitor)

  /** A file transformer, as a one-argument or a two-argument (proto, params)
      callable; `None` stands for a falsy result ("nothing to generate"). */
  datatype Xform =
    | UnaryXform(apply: FileProto -> Option<FileProto>)
    | BinaryXform(applyWithParams: (FileProto, Params) -> Option<FileProto>)

  /** A visitor factory, callable with no argument or with the params. */
  datatype VisitorFactory<V> =
    | NullaryFactory(make: () -> V)
    | UnaryFactory(makeWithParams: Params -> V)

  /** `OutputDescriptor`: output files are named after their input file with
      `outputSuffix` appended; `wantParams` asks for the parameter dictionary
      to be passed to `xform` and `visitorFactory`. */
  datatype OutputDescriptor<V> = OutputDescriptor(
    outputSuffix: string,
    visitorFactory: VisitorFactory<V>,
    xform: Xform,
    wantParams: bool)

  /** The parts of a `CodeGeneratorRequest` the driver reads; `parameter` is
      `None` when the field is not set. */
  datatype CodeGeneratorRequest = CodeGeneratorRequest(
    fileToGenerate: seq<string>,
    parameter: Option<string>,
    protoFile: seq<FileProto>)

  /** One `CodeGeneratorResponse.File`; a new entry has empty name and content. */
  datatype ResponseFile = ResponseFile(name: string, content: string)

  /** Calls an xform with `args` (params or nothing); Python raises a
      TypeError when the argument count does not match the callable. */
  function CallXform(xform: Xform, proto: FileProto, args: Option<Params>): (r: Result<Option<FileProto>, PluginError>)
    ensures r.Err? <==> xform.BinaryXform? != args.Some?
    ensures r.Err? ==> r.error == TypeError
    ensures r.Ok? && args.None? ==> r.value == xform.apply(proto)
    ensures r.Ok? && args.Some? ==> r.value == xform.applyWithParams(proto, args.value)
  {
    match (xform, args)
    case (UnaryXform(f), None) => Ok(f(proto))
    case (BinaryXform(f), Some(params)) => Ok(f(proto, params))
    case _ => Err(TypeError)
  }

  /** Calls a visitor factory with `args`, as CallXform does. */
  function CallFactory<V>(factory: VisitorFactory<V>, args: Option<Params>): (r: Result<V, PluginError>)
    ensures r.Err? <==> factory.UnaryFactory? != args.Some?
    ensures r.Err? ==> r.error == TypeError
    ensures r.Ok? && args.None? ==> r.value == factory.make()
    ensures r.Ok? && args.Some? ==> r.value == factory.makeWithParams(args.value)
  {
    match (factory, args)
    case (NullaryFactory(f), None) => Ok(f())
    case (UnaryFactory(f), Some(params)) => Ok(f(params))
    case _ => Err(TypeError)
  }

  /** `direct_output_descriptor`: a descriptor whose xform hands back the
      proto it is given, taking and ignoring a params argument exactly when
      `wantParams` is set. */
  function DirectOutputDescriptor<V>(outputSuffix: string, visitor: VisitorFactory<V>, wantParams: bool): (od: OutputDescriptor<V>)
    ensures od.outputSuffix == outputSuffix && od.visitorFactory == visitor && od.wantParams == wantParams
    ensures od.xform.BinaryXform? <==> wantParams
    ensures forall p: FileProto, args: Option<Params> {:trigger CallXform(od.xform, p, args)} ::
      CallXform(od.xform, p, args) == if args.Some? == wantParams then Ok(Some(p)) else Err(TypeError)
  {
    OutputDescriptor(
      outputSuffix,
      visitor,
      if wantParams then BinaryXform((x, _) => Some(x)) else UnaryXform(x => Some(x)),
      wantParams)
  }

  // ---------------------------------------------------------------------
  // The parameter string: dict(param.split('=') for param in parameter.split(','))

  /** The key of a `key=value` piece. */
  function Key(piece: string): string {
    Split(piece, '=')[0]
  }

  /** The value of a `key=value` piece ("" when there is none). */
  function Value(piece: string): string {
    var parts := Split(piece, '=');
    if |parts| >= 2 then parts[1] else ""
  }

  /** A piece becomes a dictionary item only when it splits into exactly two
      parts; otherwise `dict` raises a ValueError. */
  function KeyValue(piece: string): (r: Result<(string, string), PluginError>)
    ensures r.Ok? <==> Count(piece, '=') == 1
    ensures r.Ok? ==> r.value == (Key(piece), Value(piece)) && Join([Key(piece), Value(piece)], '=') == piece
    ensures r.Err? ==> r.error == ValueError(piece)
  {
    var parts := Split(piece, '=');
    SplitLength(piece, '=');
    SplitJoin(piece, '=');
    if |parts| == 2 then Ok((parts[0], parts[1])) else Err(ValueError(piece))
  }

  /** `dict(...)` over the pieces, left to right: a later key overwrites an
      earlier one, and the first malformed piece raises. */
  function BuildParams(pieces: seq<string>): Result<Params, PluginError>
    decreases |pieces|
  {
    if pieces == [] then Ok(map[])
    else
      var params :- BuildParams(pieces[..|pieces| - 1]);
      var kv :- KeyValue(pieces[|pieces| - 1]);
      Ok(params[kv.0 := kv.1])
  }

  /** The request's parameter string as a dictionary. */
  function ParseParams(parameter: string): Result<Params, PluginError> {
    BuildParams(Split(parameter, ','))
  }

  /** The index of the last piece whose key is the key of piece `i`. */
  predicate LastWithKey(pieces: seq<string>, i: int)
    requires 0 <= i < |pieces|
  {
    forall j :: i < j < |pieces| ==> Key(pieces[j]) != Key(pieces[i])
  }

  /** Building the dictionary fails exactly when some piece does not have
      exactly one '=', and then it reports the first such piece. */
  lemma {:induction false} BuildParamsFailure(pieces: seq<string>)
    ensures BuildParams(pieces).Err? <==> exists i :: 0 <= i < |pieces| && Count(pieces[i], '=') != 1
    ensures BuildParams(pieces).Err? ==>
      exists i :: 0 <= i < |pieces| && BuildParams(pieces).error == ValueError(pieces[i]) &&
        Count(pieces[i], '=') != 1 && forall j :: 0 <= j < i ==> Count(pieces[j], '=') == 1
    decreases |pieces|
  {
    if pieces != [] {
      var init := pieces[..|pieces| - 1];
      BuildParamsFailure(init);
      assert forall i :: 0 <= i < |init| ==> init[i] == pieces[i];
    }
  }

  /** The dictionary holds exactly the keys of the pieces, each mapped to the
      value of the last piece that carries it. */
  lemma {:induction false} BuildParamsContents(pieces: seq<string>, params: Params)
    requires BuildParams(pieces) == Ok(params)
    ensures forall k :: k in params <==> exists i :: 0 <= i < |pieces| && Key(pieces[i]) == k
    ensures forall i :: 0 <= i < |pieces| && LastWithKey(pieces, i) ==> params[Key(pieces[i])] == Value(pieces[i])
    decreases |pieces|
  {
    if pieces != [] {
      var n := |pieces| - 1;
      var init := pieces[..n];
      var initParams := BuildParams(init).value;
      BuildParamsContents(init, initParams);
      var last := pieces[n];
      assert pieces == init + [last];
      assert params == initParams[Key(last) := Value(last)] by {
        assert KeyValue(last) == Ok((Key(last), Value(last)));
      }
      BuildParamsKeysStep(init, last, initParams, params);
      BuildParamsValuesStep(init, last, initParams, params);
    }
  }

  /** The key set after one more piece (a step of BuildParamsContents). */
  lemma BuildParamsKeysStep(init: seq<string>, last: string, initParams: Params, params: Params)
    requires forall k :: k in initParams <==> exists i :: 0 <= i < |init| && Key(init[i]) == k
    requires params == initParams[Key(last) := Value(last)]
    ensures forall k :: k in params <==> exists i :: 0 <= i < |init + [last]| && Key((init + [last])[i]) == k
  {
    var pieces := init + [last];
    forall k ensures k in params <==> exists i :: 0 <= i < |pieces| && Key(pieces[i]) == k {
      if k in params && k != Key(last) {
        var i :| 0 <= i < |init| && Key(init[i]) == k;
        assert pieces[i] == init[i];
      } else if k == Key(last) {
        assert pieces[|init|] == last;
      }
    }
  }

  /** The values after one more piece (a step of BuildParamsContents). */
  lemma BuildParamsValuesStep(init: seq<string>, last: string, initParams: Params, params: Params)
    requires forall k :: k in initParams <==> exists i :: 0 <= i < |init| && Key(init[i]) == k
    requires forall i :: 0 <= i < |init| && LastWithKey(init, i) ==> initParams[Key(init[i])] == Value(init[i])
    requires params == initParams[Key(last) := Value(last)]
    ensures forall i :: 0 <= i < |init + [last]| && LastWithKey(init + [last], i) ==>
      params[Key((init + [last])[i])] == Value((init + [last])[i])
  {
    var pieces := init + [last];
    var n := |init|;
    forall i | 0 <= i < |pieces| && LastWithKey(pieces, i)
      ensures params[Key(pieces[i])] == Value(pieces[i])
    {
      if i < n {
        assert pieces[n] == last;
        assert Key(last) != Key(pieces[i]);
        assert pieces[i] == init[i];
        assert LastWithKey(init, i) by {
          forall j | i < j < n ensures Key(init[j]) != Key(init[i]) {
            assert pieces[j] == init[j];
          }
        }
      }
    }
  }

  // ---------------------------------------------------------------------
  // The response

  /** `[pf for pf in request.proto_file if pf.name == name]`. */
  function Matching(protoFiles: seq<FileProto>, name: string): (r: seq<FileProto>)
    ensures forall p :: p in r <==> p in protoFiles && p.name == name
    ensures |r| > 0 ==> exists i :: (0 <= i < |protoFiles| && protoFiles[i] == r[0] &&
      forall j :: 0 <= j < i ==> protoFiles[j].name != name)
    decreases |protoFiles|
  {
    if protoFiles == [] then []
    else
      var rest := Matching(protoFiles[1..], name);
      if protoFiles[0].name == name then [protoFiles[0]] + rest else rest
  }

  /** The first proto file named `name`; indexing an empty match list raises
      an IndexError. */
  function FindFileProto(protoFiles: seq<FileProto>, name: string): (r: Result<FileProto, PluginError>)
    ensures r.Err? <==> forall p :: p in protoFiles ==> p.name != name
    ensures r.Err? ==> r.error == IndexError(name)
    ensures r.Ok? ==> r.value.name == name && exists i :: (0 <= i < |protoFiles| && protoFiles[i] == r.value &&
      forall j :: 0 <= j < i ==> protoFiles[j].name != name)
  {
    var found := Matching(protoFiles, name);
    if |found| == 0 then Err(IndexError(name)) else Ok(found[0])
  }

  /** The arguments passed to a descriptor's xform and visitor factory: the
      parsed parameter dictionary when the request has a parameter and the
      descriptor wants it, nothing otherwise. */
  function DescriptorArgs<V>(parameter: Option<string>, od: OutputDescriptor<V>): (r: Result<Option<Params>, PluginError>)
    ensures r.Err? <==> parameter.Some? && od.wantParams && ParseParams(parameter.value).Err?
    ensures r.Err? ==> r.error == ParseParams(parameter.value).error
    ensures r.Ok? ==> (r.value.Some? <==> parameter.Some? && od.wantParams)
    ensures r.Ok? && r.value.Some? ==> ParseParams(parameter.value) == Ok(r.value.value)
  {
    if parameter.Some? && od.wantParams then
      var params :- ParseParams(parameter.value);
      Ok(Some(params))
    else
      Ok(None)
  }

  /** Runs a descriptor on an Envoy file: xform, then visitor factory (with
      the same arguments), then the traversal when the xform produced a proto. */
  function RunDescriptor<V>(fileProto: FileProto, od: OutputDescriptor<V>, args: Option<Params>,
                            traverse: (FileProto, V) -> Result<string, string>): Result<string, PluginError>
  {
    var xformed :- CallXform(od.xform, fileProto, args);
    var visitor :- CallFactory(od.visitorFactory, args);
    match xformed
    case None => Ok("")
    case Some(p) => Traversed(traverse(p, visitor))
  }

  /** The outcome of `traverse.traverse_file`, an exception it raises
      passing through unchanged. */
  function Traversed(outcome: Result<string, string>): (r: Result<string, PluginError>)
    ensures r.Ok? <==> outcome.Ok?
    ensures r.Ok? ==> r.value == outcome.value
    ensures r.Err? ==> r.error == Raised(outcome.error)
  {
    match outcome
    case Ok(text) => Ok(text)
    case Err(message) => Err(Raised(message))
  }

  /** The content of one descriptor's entry for one file: empty outside the
      `envoy.` packages, without calling any callback. */
  function DescriptorContent<V>(fileProto: FileProto, od: OutputDescriptor<V>, parameter: Option<string>,
                                traverse: (FileProto, V) -> Result<string, string>): Result<string, PluginError>
  {
    if !StartsWith(fileProto.package, "envoy.") then Ok("")
    else
      var args :- DescriptorArgs(parameter, od);
      RunDescriptor(fileProto, od, args, traverse)
  }

  /** One entry per descriptor, in descriptor order. */
  function DescriptorEntries<V>(fileProto: FileProto, ods: seq<OutputDescriptor<V>>, parameter: Option<string>,
                                traverse: (FileProto, V) -> Result<string, string>): Result<seq<ResponseFile>, PluginError>
    decreases |ods|
  {
    if ods == [] then Ok([])
    else
      var content :- DescriptorContent(fileProto, ods[0], parameter, traverse);
      var rest :- DescriptorEntries(fileProto, ods[1..], parameter, traverse);
      Ok([ResponseFile(fileProto.name + ods[0].outputSuffix, content)] + rest)
  }

  /** The entry naming the debug copy of the input descriptor. */
  function DescriptorProtoEntry(fileProto: FileProto, render: FileProto -> string): ResponseFile {
    ResponseFile(fileProto.name + ".descriptor.proto", render(fileProto))
  }

  /** Everything one requested file adds to the response. */
  function FileEntries<V>(fileProto: FileProto, ods: seq<OutputDescriptor<V>>, parameter: Option<string>,
                          traverse: (FileProto, V) -> Result<string, string>,
                          render: FileProto -> string): Result<seq<ResponseFile>, PluginError>
  {
    var entries :- DescriptorEntries(fileProto, ods, parameter, traverse);
    Ok(entries + [DescriptorProtoEntry(fileProto, render)])
  }

  /** The response entries for the requested names `files`, in order. */
  function ResponseFor<V>(request: CodeGeneratorRequest, files: seq<string>, ods: seq<OutputDescriptor<V>>,
                          traverse: (FileProto, V) -> Result<string, string>,
                          render: FileProto -> string): Result<seq<ResponseFile>, PluginError>
    decreases |files|
  {
    if files == [] then Ok([])
    else
      var fileProto :- FindFileProto(request.protoFile, files[0]);
      var entries :- FileEntries(fileProto, ods, request.parameter, traverse, render);
      var rest :- ResponseFor(request, files[1..], ods, traverse, render);
      Ok(entries + rest)
  }

  /** Entries already in the response, followed by those still to come. */
  function Prepend(done: seq<ResponseFile>, rest: Result<seq<ResponseFile>, PluginError>): Result<seq<ResponseFile>, PluginError> {
    match rest
    case Ok(entries) => Ok(done + entries)
    case Err(e) => Err(e)
  }

  /** Prepending in two steps is prepending the concatenation. */
  lemma PrependTwice(first: seq<ResponseFile>, second: seq<ResponseFile>, rest: Result<seq<ResponseFile>, PluginError>)
    ensures Prepend(first, Prepend(second, rest)) == Prepend(first + second, rest)
  {
    if rest.Ok? {
      assert first + (second + rest.value) == (first + second) + rest.value;
    }
  }

  /** One descriptor's step of DescriptorEntries, read from position `j`. */
  lemma DescriptorEntriesStep<V>(fileProto: FileProto, ods: seq<OutputDescriptor<V>>, j: nat, done: seq<ResponseFile>,
                                 parameter: Option<string>, traverse: (FileProto, V) -> Result<string, string>)
    requires j < |ods|
    requires DescriptorEntries(fileProto, ods, parameter, traverse)
      == Prepend(done, DescriptorEntries(fileProto, ods[j..], parameter, traverse))
    ensures DescriptorContent(fileProto, ods[j], parameter, traverse).Err? ==>
      DescriptorEntries(fileProto, ods, parameter, traverse) == Err(DescriptorContent(fileProto, ods[j], parameter, traverse).error)
    ensures DescriptorContent(fileProto, ods[j], parameter, traverse).Ok? ==>
      DescriptorEntries(fileProto, ods, parameter, traverse)
        == Prepend(done + [ResponseFile(fileProto.name + ods[j].outputSuffix, DescriptorContent(fileProto, ods[j], parameter, traverse).value)],
                   DescriptorEntries(fileProto, ods[j + 1..], parameter, traverse))
  {
    assert ods[j..][0] == ods[j];
    assert ods[j..][1..] == ods[j + 1..];
    var content := DescriptorContent(fileProto, ods[j], parameter, traverse);
    if content.Ok? {
      var entry := ResponseFile(fileProto.name + ods[j].outputSuffix, content.value);
      PrependTwice(done, [entry], DescriptorEntries(fileProto, ods[j + 1..], parameter, traverse));
    }
  }

  /** A response built so far, then the entries still to come; the first
      exception wins. */
  function Then(sofar: Result<seq<ResponseFile>, PluginError>, rest: Result<seq<ResponseFile>, PluginError>): Result<seq<ResponseFile>, PluginError> {
    match sofar
    case Ok(done) => Prepend(done, rest)
    case Err(e) => Err(e)
  }

  /** One requested file's step of ResponseFor, read from position `i`. */
  lemma ResponseForStep<V>(request: CodeGeneratorRequest, files: seq<string>, i: nat, done: seq<ResponseFile>,
                           ods: seq<OutputDescriptor<V>>, traverse: (FileProto, V) -> Result<string, string>,
                           render: FileProto -> string)
    requires i < |files|
    requires ResponseFor(request, files, ods, traverse, render) == Prepend(done, ResponseFor(request, files[i..], ods, traverse, render))
    ensures FindFileProto(request.protoFile, files[i]).Err? ==>
      ResponseFor(request, files, ods, traverse, render) == Err(IndexError(files[i]))
    ensures FindFileProto(request.protoFile, files[i]).Ok? ==>
      ResponseFor(request, files, ods, traverse, render)
        == Then(Prepend(done, FileEntries(FindFileProto(request.protoFile, files[i]).value, ods, request.parameter, traverse, render)),
                ResponseFor(request, files[i + 1..], ods, traverse, render))
  {
    assert files[i..][0] == files[i];
    assert files[i..][1..] == files[i + 1..];
    var found := FindFileProto(request.protoFile, files[i]);
    if found.Ok? {
      var entries := FileEntries(found.value, ods, request.parameter, traverse, render);
      if entries.Ok? {
        PrependTwice(done, entries.value, ResponseFor(request, files[i + 1..], ods, traverse, render));
      }
    }
  }

  /** The body of `plugin()` for one descriptor and one file of an `envoy.`
      package: parse the parameter when the descriptor wants it, call the
      xform and the visitor factory with the same arguments, and traverse the
      xformed proto unless the xform produced nothing. */
  method ApplyDescriptor<V>(fileProto: FileProto, od: OutputDescriptor<V>, parameter: Option<string>,
                            traverse: (FileProto, V) -> Result<string, string>)
    returns (r: Result<string, PluginError>)
    requires StartsWith(fileProto.package, "envoy.")
    ensures r == DescriptorContent(fileProto, od, parameter, traverse)
  {
    var args: Option<Params> := None;
    if parameter.Some? && od.wantParams {
      var params :- ParseParams(parameter.value);
      args := Some(params);
    }
    var xformed :- CallXform(od.xform, fileProto, args);
    var visitor :- CallFactory(od.visitorFactory, args);
    if xformed.Some? {
      var content := traverse(xformed.value, visitor);
      if content.Err? {
        return Err(Raised(content.error));
      }
      return Ok(content.value);
    }
    return Ok("");
  }

  /** The inner loop of `plugin()` for one requested file: one entry per
      descriptor, named after the file and the descriptor's suffix, whose
      content stays empty outside the `envoy.` packages; then the
      descriptor-proto entry. Returns the grown response, or the exception
      that aborts the run. */
  method AddFileEntries<V>(response: seq<ResponseFile>, fileProto: FileProto, outputDescriptors: seq<OutputDescriptor<V>>,
                           parameter: Option<string>, traverse: (FileProto, V) -> Result<string, string>,
                           render: FileProto -> string)
    returns (r: Result<seq<ResponseFile>, PluginError>)
    ensures r == Prepend(response, FileEntries(fileProto, outputDescriptors, parameter, traverse, render))
  {
    var before := response;
    var grown := response;
    ghost var entries := DescriptorEntries(fileProto, outputDescriptors, parameter, traverse);
    assert outputDescriptors[0..] == outputDescriptors;
    assert entries.Ok? ==> [] + entries.value == entries.value;
    assert grown[|before|..] == [];
    for j := 0 to |outputDescriptors|
      invariant |before| <= |grown| && grown[..|before|] == before
      invariant entries == Prepend(grown[|before|..], DescriptorEntries(fileProto, outputDescriptors[j..], parameter, traverse))
    {
      var od := outputDescriptors[j];
      DescriptorEntriesStep(fileProto, outputDescriptors, j, grown[|before|..], parameter, traverse);
      ghost var done := grown[|before|..];
      grown := grown + [ResponseFile("", "")];
      var f := |grown| - 1;
      grown := grown[f := grown[f].(name := fileProto.name + od.outputSuffix)];
      assert grown[..|before|] == before;
      assert grown[|before|..] == done + [ResponseFile(fileProto.name + od.outputSuffix, "")];
      if !StartsWith(fileProto.package, "envoy.") {
        assert DescriptorContent(fileProto, od, parameter, traverse) == Ok("");
        continue;
      }
      var content := ApplyDescriptor(fileProto, od, parameter, traverse);
      if content.Err? {
        assert entries == Err(content.error);
        return Err(content.error);
      }
      grown := grown[f := grown[f].(content := content.value)];
      assert grown[|before|..] == done + [ResponseFile(fileProto.name + od.outputSuffix, content.value)];
    }
    assert outputDescriptors[|outputDescriptors|..] == [];
    grown := grown + [DescriptorProtoEntry(fileProto, render)];
    assert grown == before + (entries.value + [DescriptorProtoEntry(fileProto, render)]);
    r := Ok(grown);
  }

  /** `plugin()` between reading the request and writing the response: the
      entries of every requested file, in request order; the run aborts at
      the first exception. */
  method GenerateResponse<V>(request: CodeGeneratorRequest, outputDescriptors: seq<OutputDescriptor<V>>,
                             traverse: (FileProto, V) -> Result<string, string>,
                             render: FileProto -> string)
    returns (r: Result<seq<ResponseFile>, PluginError>)
    ensures r == ResponseFor(request, request.fileToGenerate, outputDescriptors, traverse, render)
  {
    var files := request.fileToGenerate;
    var response: seq<ResponseFile> := [];
    ghost var whole := ResponseFor(request, files, outputDescriptors, traverse, render);
    assert files[0..] == files;
    assert whole.Ok? ==> [] + whole.value == whole.value;
    for i := 0 to |files|
      invariant whole == Prepend(response, ResponseFor(request, files[i..], outputDescriptors, traverse, render))
    {
      ResponseForStep(request, files, i, response, outputDescriptors, traverse, render);
      var found := FindFileProto(request.protoFile, files[i]);
      if found.Err? {
        return Err(found.error);
      }
      var fileProto := found.value;
      response :- AddFileEntries(response, fileProto, outputDescriptors, request.parameter, traverse, render);
    }
    assert files[|files|..] == [];
    assert ResponseFor(request, files[|files|..], outputDescriptors, traverse, render) == Ok([]);
    assert response + [] == response;
    r := Ok(response);
  }

  // ---------------------------------------------------------------------
  // Properties of the response

  /** The name of entry `j` of the `i`-th block of `width` entries ("" when
      there is no such entry). */
  function NameAt(rs: seq<ResponseFile>, width: nat, i: int, j: int): string {
    var k := i * width + j;
    if 0 <= k < |rs| then rs[k].name else ""
  }

  /** Descriptor entries: one per descriptor, in order, named after the file. */
  lemma {:induction false} DescriptorEntriesNames<V>(fileProto: FileProto, ods: seq<OutputDescriptor<V>>, parameter: Option<string>,
                                                     traverse: (FileProto, V) -> Result<string, string>, entries: seq<ResponseFile>)
    requires DescriptorEntries(fileProto, ods, parameter, traverse) == Ok(entries)
    ensures |entries| == |ods|
    ensures forall j :: 0 <= j < |ods| ==> entries[j].name == fileProto.name + ods[j].outputSuffix
    decreases |ods|
  {
    if ods != [] {
      var rest := DescriptorEntries(fileProto, ods[1..], parameter, traverse).value;
      DescriptorEntriesNames(fileProto, ods[1..], parameter, traverse, rest);
      assert entries[1..] == rest;
    }
  }

  /** Names in blocks of `width`: block 0 is the first `width` entries, and
      block `i + 1` of `first + rest` is block `i` of `rest`. */
  lemma NameAtConcat(first: seq<ResponseFile>, rest: seq<ResponseFile>, width: nat, i: nat, j: nat)
    requires |first| == width && j < width
    ensures i == 0 ==> NameAt(first + rest, width, i, j) == first[j].name
    ensures i > 0 ==> NameAt(first + rest, width, i, j) == NameAt(rest, width, i - 1, j)
  {
    if i > 0 {
      assert i * width == (i - 1) * width + width;
    }
  }

  /** Every requested file contributes one entry per descriptor, in
      descriptor order and named `<file><suffix>`, then the entry
      `<file>.descriptor.proto`: `|ods| + 1` entries per file. */
  lemma {:induction false} ResponseShape<V>(request: CodeGeneratorRequest, files: seq<string>, ods: seq<OutputDescriptor<V>>,
                                            traverse: (FileProto, V) -> Result<string, string>, render: FileProto -> string,
                                            rs: seq<ResponseFile>)
    requires ResponseFor(request, files, ods, traverse, render) == Ok(rs)
    ensures |rs| == |files| * (|ods| + 1)
    ensures forall i, j :: 0 <= i < |files| && 0 <= j < |ods| ==> NameAt(rs, |ods| + 1, i, j) == files[i] + ods[j].outputSuffix
    ensures forall i :: 0 <= i < |files| ==> NameAt(rs, |ods| + 1, i, |ods|) == files[i] + ".descriptor.proto"
    decreases |files|
  {
    if files != [] {
      var w := |ods| + 1;
      var fileProto := FindFileProto(request.protoFile, files[0]).value;
      var descriptorEntries := DescriptorEntries(fileProto, ods, request.parameter, traverse).value;
      DescriptorEntriesNames(fileProto, ods, request.parameter, traverse, descriptorEntries);
      var entries := descriptorEntries + [DescriptorProtoEntry(fileProto, render)];
      var rest := ResponseFor(request, files[1..], ods, traverse, render).value;
      ResponseShape(request, files[1..], ods, traverse, render, rest);
      assert rs == entries + rest;
      assert |rs| == |files| * w by {
        assert |files| * w == w + (|files| - 1) * w;
      }
      assert fileProto.name == files[0];
      forall i, j | 0 <= i < |files| && 0 <= j < |ods|
        ensures NameAt(rs, w, i, j) == files[i] + ods[j].outputSuffix
      {
        NameAtConcat(entries, rest, w, i, j);
        if i > 0 {
          assert files[1..][i - 1] == files[i];
          assert NameAt(rest, w, i - 1, j) == files[1..][i - 1] + ods[j].outputSuffix;
        } else {
          assert entries[j] == descriptorEntries[j];
        }
      }
      forall i | 0 <= i < |files|
        ensures NameAt(rs, w, i, |ods|) == files[i] + ".descriptor.proto"
      {
        NameAtConcat(entries, rest, w, i, |ods|);
        if i > 0 {
          assert files[1..][i - 1] == files[i];
          assert NameAt(rest, w, i - 1, |ods|) == files[1..][i - 1] + ".descriptor.proto";
        }
      }
    }
  }

  /** The entries of a file whose descriptors were all skipped. */
  function SkippedEntries<V>(fileName: string, ods: seq<OutputDescriptor<V>>): seq<ResponseFile> {
    seq(|ods|, j requires 0 <= j < |ods| => ResponseFile(fileName + ods[j].outputSuffix, ""))
  }

  /** Outside the `envoy.` packages every descriptor's entry is empty and
      the outcome does not depend on any xform, visitor factory, traversal
      or parameter: nothing is called. */
  lemma {:induction false} NonEnvoyFileEntries<V>(fileProto: FileProto, ods: seq<OutputDescriptor<V>>, parameter: Option<string>,
                                                  traverse: (FileProto, V) -> Result<string, string>, render: FileProto -> string)
    requires !StartsWith(fileProto.package, "envoy.")
    ensures DescriptorEntries(fileProto, ods, parameter, traverse) == Ok(SkippedEntries(fileProto.name, ods))
    ensures FileEntries(fileProto, ods, parameter, traverse, render)
      == Ok(SkippedEntries(fileProto.name, ods) + [DescriptorProtoEntry(fileProto, render)])
    decreases |ods|
  {
    if ods != [] {
      NonEnvoyFileEntries(fileProto, ods[1..], parameter, traverse, render);
      assert DescriptorContent(fileProto, ods[0], parameter, traverse) == Ok("");
      var restSkipped := SkippedEntries(fileProto.name, ods[1..]);
      assert DescriptorEntries(fileProto, ods, parameter, traverse)
        == Ok([ResponseFile(fileProto.name + ods[0].outputSuffix, "")] + restSkipped);
      var skipped := SkippedEntries(fileProto.name, ods);
      var first := ResponseFile(fileProto.name + ods[0].outputSuffix, "");
      forall k | 0 <= k < |ods| ensures skipped[k] == ([first] + restSkipped)[k] {
        if k > 0 {
          assert ods[1..][k - 1] == ods[k];
        }
      }
      assert skipped == [first] + restSkipped;
    }
  }

  /** A requested name with no proto file of that name aborts the run. */
  lemma {:induction false} MissingRequestedFileFails<V>(request: CodeGeneratorRequest, files: seq<string>, ods: seq<OutputDescriptor<V>>,
                                                        traverse: (FileProto, V) -> Result<string, string>, render: FileProto -> string,
                                                        i: nat)
    requires i < |files|
    requires forall p :: p in request.protoFile ==> p.name != files[i]
    ensures ResponseFor(request, files, ods, traverse, render).Err?
    decreases i
  {
    if i > 0 {
      MissingRequestedFileFails(request, files[1..], ods, traverse, render, i - 1);
    }
  }

  /** An xform that yields nothing leaves the entry empty, but the visitor
      factory is still called first, so a failing call still aborts. */
  lemma XformYieldsNothing<V>(fileProto: FileProto, od: OutputDescriptor<V>, parameter: Option<string>,
                              traverse: (FileProto, V) -> Result<string, string>, args: Option<Params>)
    requires StartsWith(fileProto.package, "envoy.")
    requires DescriptorArgs(parameter, od) == Ok(args)
    requires CallXform(od.xform, fileProto, args) == Ok(None)
    ensures CallFactory(od.visitorFactory, args).Ok? ==> DescriptorContent(fileProto, od, parameter, traverse) == Ok("")
    ensures CallFactory(od.visitorFactory, args).Err? ==> DescriptorContent(fileProto, od, parameter, traverse) == Err(TypeError)
  {
  }

  /** An xform that yields a proto has that proto traversed with the visitor
      the factory made: the entry's content is the traversal's text, and an
      exception the traversal raises aborts the run. */
  lemma XformYieldsProto<V>(fileProto: FileProto, od: OutputDescriptor<V>, parameter: Option<string>,
                            traverse: (FileProto, V) -> Result<string, string>, args: Option<Params>,
                            p: FileProto, v: V)
    requires StartsWith(fileProto.package, "envoy.")
    requires DescriptorArgs(parameter, od) == Ok(args)
    requires CallXform(od.xform, fileProto, args) == Ok(Some(p))
    requires CallFactory(od.visitorFactory, args) == Ok(v)
    ensures RunDescriptor(fileProto, od, args, traverse) == Traversed(traverse(p, v))
    ensures DescriptorContent(fileProto, od, parameter, traverse) == Traversed(traverse(p, v))
  {
  }

  /** The parameter reaches a descriptor only when it wants params: a
      descriptor without `wantParams` sees no difference between requests
      with different parameters, or none, and a malformed parameter fails
      exactly the Envoy files' descriptors that want it. */
  lemma ParamsOnlyWhenWanted<V>(fileProto: FileProto, od: OutputDescriptor<V>, parameter: Option<string>, other: Option<string>,
                                traverse: (FileProto, V) -> Result<string, string>)
    ensures !od.wantParams ==>
      DescriptorContent(fileProto, od, parameter, traverse) == DescriptorContent(fileProto, od, other, traverse)
    ensures StartsWith(fileProto.package, "envoy.") && parameter.Some? && ParseParams(parameter.value).Err? ==>
      (DescriptorContent(fileProto, od, parameter, traverse).Err? <==> od.wantParams || RunDescriptor(fileProto, od, None, traverse).Err?)
  {
  }

  /** A direct descriptor traverses the requested proto itself, when the
      request supplies params exactly as the descriptor wants them; a
      direct descriptor that wants params fails on a request without one. */
  lemma DirectDescriptorTraversesInput<V>(fileProto: FileProto, outputSuffix: string, factory: VisitorFactory<V>, wantParams: bool,
                                          parameter: Option<string>, traverse: (FileProto, V) -> Result<string, string>,
                                          args: Option<Params>, visitor: V)
    requires StartsWith(fileProto.package, "envoy.")
    requires DescriptorArgs(parameter, DirectOutputDescriptor(outputSuffix, factory, wantParams)) == Ok(args)
    ensures wantParams && parameter.None? ==>
      DescriptorContent(fileProto, DirectOutputDescriptor(outputSuffix, factory, wantParams), parameter, traverse) == Err(TypeError)
    ensures (wantParams ==> parameter.Some?) && CallFactory(factory, args) == Ok(visitor) ==>
      DescriptorContent(fileProto, DirectOutputDescriptor(outputSuffix, factory, wantParams), parameter, traverse)
        == Traversed(traverse(fileProto, visitor))
  {
    var od := DirectOutputDescriptor(outputSuffix, factory, wantParams);
    assert CallXform(od.xform, fileProto, args) == if args.Some? == wantParams then Ok(Some(fileProto)) else Err(TypeError);
  }
}
