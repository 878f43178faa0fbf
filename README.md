# Envoy API proto tooling: protoxform status decision and protoc plugin driver

This project models two parts of Envoy's API proto tooling in Dafny and proves properties about them.

- **The protoxform visitor** (`tools/protoxform/protoxform.py`). Its constructor derives the freeze flag from the plugin parameters. Its service, enum and message callbacks produce nothing. Its `visit_file` copies a file descriptor and decides the copy's package version status (`udpa.annotations.file_status`). A non-exempt file with an UNKNOWN status is a format error. Only the active-or-frozen output of a non-exempt file changes the status. The change is to FROZEN when freezing is requested and the file has a next major version, to FROZEN when the file is already frozen, and to ACTIVE otherwise.
- **The protoc plugin driver** (`tools/api_proto_plugin/plugin.py`). This covers the `OutputDescriptor` record, `direct_output_descriptor`, the parsing of the request's `parameter` string into a dictionary, and the assembly of the response. For each requested file and each descriptor, the driver adds an entry named after the file plus the descriptor's suffix. The entry is empty for packages outside `envoy.`, and otherwise holds the traversal of the xformed proto. A `.descriptor.proto` entry closes each file's block.

Files:

- `wrappers.dfy` holds `Option` and `Result`. Python's `None` and raised exceptions become values of these types.
- `strings.dfy` models Python's `str.startswith` and `str.split` with a one-character separator.
- `descriptor.dfy` holds the file descriptor record and the `PackageVersionStatus` enumeration.
- `plugin.dfy` models the driver.
- `protoxform.dfy` models the visitor.

The callbacks the driver does not define are function-typed parameters. These are each descriptor's `xform` and `visitor_factory`, `traverse.traverse_file`, and the text rendering `str(file_proto)`. A Python callable's arity is modelled explicitly. If the driver calls an xform or a visitor factory with the wrong number of arguments, the call fails with `TypeError`.

Two behaviours of the source matter for the model:

- The status decision has a second failure. The `assert` at protoxform.py:69 fails when an active, non-exempt file that is not being frozen has a status other than ACTIVE or FROZEN, namely NEXT_MAJOR_VERSION_CANDIDATE. `DecideStatus` returns `Err(AssertionFailed)` in that case.
- The visitor factory is called before the xform's result is tested (plugin.py:73-79). So a failing factory call aborts the run even when the xform yields nothing.

## Model

| member | source | states |
|---|---|---|
| `Strings.StartsWith` | tools/api_proto_plugin/plugin.py:69 | `str.startswith`: the prefix is no longer than the string and equals its first characters |
| `Strings.Split` | tools/api_proto_plugin/plugin.py:72 | `str.split` always yields at least one piece |
| `Strings.SplitJoin` | tools/api_proto_plugin/plugin.py:72 | joining the pieces of a split with the separator gives back the input |
| `Strings.JoinSplit` | tools/api_proto_plugin/plugin.py:72 | splitting the join of separator-free pieces gives back those pieces (the inverse round trip) |
| `Strings.SplitPiecesAreSeparatorFree` | tools/api_proto_plugin/plugin.py:72 | no piece of a split contains the separator |
| `Strings.SplitLength` | tools/api_proto_plugin/plugin.py:72 | a split has exactly one piece more than the input has separators |
| `Plugin.DirectOutputDescriptor` | tools/api_proto_plugin/plugin.py:14-34 | builds an `OutputDescriptor` record (suffix, visitor factory, xform, `want_params`); suffix, visitor factory and `want_params` are stored as given; the xform takes a params argument exactly when `want_params` holds; called with that arity it returns its input unchanged, and called with the other arity it fails with TypeError |
| `Plugin.KeyValue` | tools/api_proto_plugin/plugin.py:72 | a parameter piece is a dictionary item exactly when it holds one `=`; the item is (key, value) and rejoins to the piece; any other piece raises ValueError naming it |
| `Plugin.BuildParamsFailure` | tools/api_proto_plugin/plugin.py:72 | parsing fails exactly when some piece lacks exactly one `=`, and the error names the first such piece |
| `Plugin.BuildParamsContents` | tools/api_proto_plugin/plugin.py:72 | the parsed dictionary's keys are exactly the pieces' keys, and each maps to the value of the last piece with that key (a later duplicate overwrites an earlier one) |
| `Plugin.BuildParams` | tools/api_proto_plugin/plugin.py:72 | `dict(...)` over the pieces, left to right; its promise is stated by `Plugin.BuildParamsFailure` and `Plugin.BuildParamsContents` |
| `Plugin.ParseParams` | tools/api_proto_plugin/plugin.py:72 | the request's parameter split at `,` and handed to `dict`; its promise is that of `Plugin.BuildParams` over `Strings.Split`, and `Protoxform.FreezeFromParameter` states it for the freeze flag |
| `Plugin.Matching` | tools/api_proto_plugin/plugin.py:61 | the comprehension keeps exactly the proto files with the requested name, and its head is the first of them in request order |
| `Plugin.FindFileProto` | tools/api_proto_plugin/plugin.py:59-61 | the lookup fails with IndexError exactly when no proto file has the requested name; otherwise it returns the first proto file with that name |
| `Plugin.DescriptorArgs` | tools/api_proto_plugin/plugin.py:71-77 | the callbacks get params exactly when the request has a parameter and the descriptor wants params; the parse's failure is exactly the parameter's, and otherwise the params are the parsed parameter |
| `Plugin.CallXform` | tools/api_proto_plugin/plugin.py:73-76 | calling an xform fails with TypeError exactly when its arity does not match the arguments; otherwise it returns the callable's result on those arguments |
| `Plugin.CallFactory` | tools/api_proto_plugin/plugin.py:74-77 | calling a visitor factory fails with TypeError exactly when its arity does not match the arguments; otherwise it returns the visitor the callable makes |
| `Plugin.RunDescriptor` | tools/api_proto_plugin/plugin.py:73-79 | xform, then factory with the same arguments, then the traversal when the xform yields a proto; stated by `Plugin.XformYieldsProto` (any xform yielding a proto), `Plugin.XformYieldsNothing` (an xform yielding nothing) and `Plugin.DirectDescriptorTraversesInput` |
| `Plugin.DescriptorContent` | tools/api_proto_plugin/plugin.py:68-79 | one entry's content: empty outside `envoy.` without calling anything, otherwise the run of the descriptor; stated by `Plugin.NonEnvoyFileEntries`, `Plugin.ParamsOnlyWhenWanted`, `Plugin.XformYieldsProto` and `Plugin.XformYieldsNothing`, and `Plugin.ApplyDescriptor` is proved equal to it |
| `Plugin.Traversed` | tools/api_proto_plugin/plugin.py:78-79 | the traversal's text becomes the content, and an exception raised in `traverse_file` propagates with its message as `Raised` |
| `Plugin.DescriptorProtoEntry` | tools/api_proto_plugin/plugin.py:91-93 | the debug entry is named file name + `.descriptor.proto` and holds `str(file_proto)` (the `render` parameter); its place and name in the response are stated by `Plugin.FileEntries` and `Plugin.ResponseShape` |
| `Plugin.DescriptorEntries` | tools/api_proto_plugin/plugin.py:65-79 | one entry per descriptor in order, or the first exception; stated by `Plugin.DescriptorEntriesNames` and `Plugin.NonEnvoyFileEntries` |
| `Plugin.FileEntries` | tools/api_proto_plugin/plugin.py:65-93 | a file's descriptor entries followed by its `.descriptor.proto` entry; stated by `Plugin.NonEnvoyFileEntries` and `Plugin.ResponseShape`, and `Plugin.AddFileEntries` is proved equal to it |
| `Plugin.ResponseFor` | tools/api_proto_plugin/plugin.py:59-93 | the blocks of the requested files in request order, or the first exception; stated by `Plugin.ResponseShape` and `Plugin.MissingRequestedFileFails`, and `Plugin.GenerateResponse` is proved equal to it |
| `Plugin.ApplyDescriptor` | tools/api_proto_plugin/plugin.py:71-79 | for an `envoy.` file, the loop body parses params only when the request has a parameter and the descriptor wants params, passes the same arguments to xform and factory, and traverses the xformed proto when there is one; its outcome equals `DescriptorContent` |
| `Plugin.AddFileEntries` | tools/api_proto_plugin/plugin.py:65-93 | the inner loop appends to the response exactly the file's entries as `FileEntries` defines them, or stops with the first exception |
| `Plugin.GenerateResponse` | tools/api_proto_plugin/plugin.py:59-93 | the outer loop over the requested files produces exactly `ResponseFor(request, file_to_generate)`: the files' blocks in request order, or the first exception |
| `Plugin.DescriptorEntriesNames` | tools/api_proto_plugin/plugin.py:65-67 | a file gets one entry per descriptor, in descriptor order, named file name plus suffix |
| `Plugin.ResponseShape` | tools/api_proto_plugin/plugin.py:65-92 | a successful response has exactly `len(output_descriptors) + 1` entries per requested file; entry j of file i is named `file + suffix_j`, and the last entry of each block is named `file + ".descriptor.proto"` |
| `Plugin.NonEnvoyFileEntries` | tools/api_proto_plugin/plugin.py:68-70 | for a package outside `envoy.`, every descriptor entry has empty content and the outcome depends only on the descriptors' suffixes, not on any xform, factory, traversal or parameter |
| `Plugin.MissingRequestedFileFails` | tools/api_proto_plugin/plugin.py:61 | a requested name that no proto file carries makes the whole run fail |
| `Plugin.XformYieldsNothing` | tools/api_proto_plugin/plugin.py:73-79 | when the xform yields nothing the entry's content is `''`, and the factory's failure still aborts |
| `Plugin.XformYieldsProto` | tools/api_proto_plugin/plugin.py:73-79 | when the xform yields a proto and the factory makes a visitor, the entry's content is the traversal of that proto with that visitor, and an exception raised by the traversal aborts |
| `Plugin.ParamsOnlyWhenWanted` | tools/api_proto_plugin/plugin.py:71-77 | a descriptor without `want_params` gets the same content whatever the request's parameter is; a malformed parameter fails an `envoy.` descriptor that wants params, and fails no other descriptor through parsing |
| `Plugin.DirectDescriptorTraversesInput` | tools/api_proto_plugin/plugin.py:32-34 | a direct descriptor's content is the traversal of the requested proto itself; one that wants params fails with TypeError on a request without a parameter |
| `Protoxform.PackageVersionStatusExempt` | tools/protoxform/protoxform.py:53-54 | a file is exempt under `envoy/annotations` or when the traversal yields no service, message or enum artifact; stated in terms of the file's declarations by `Protoxform.ExemptByDeclarations` |
| `Protoxform.ProtoFormatVisitor.VisitService` | tools/protoxform/protoxform.py:38-39 | a service yields no artifact |
| `Protoxform.ProtoFormatVisitor.VisitEnum` | tools/protoxform/protoxform.py:41-42 | an enum yields no artifact |
| `Protoxform.ProtoFormatVisitor.VisitMessage` | tools/protoxform/protoxform.py:44-45 | a message yields no artifact |
| `Protoxform.ProtoFormatVisitor.DecideStatus` | tools/protoxform/protoxform.py:53-70 | UNKNOWN on a non-exempt file is an error whatever the flag; the assertion fails exactly for NEXT_MAJOR_VERSION_CANDIDATE on an active, non-exempt, non-freezing file; exempt files and non-active outputs keep the status; freeze plus a next version gives FROZEN; FROZEN stays FROZEN; an active non-exempt result is ACTIVE or FROZEN; FROZEN comes only from FROZEN or from the freeze rule |
| `Protoxform.ProtoFormatVisitor.VisitFile` | tools/protoxform/protoxform.py:47-73 | the output is a copy of the input differing at most in its status, which is the decided status; exemption counts the traversal's service, message and enum artifacts, and the next-version test looks the file name up in the type database's table |
| `Protoxform.NewProtoFormatVisitor` | tools/protoxform/protoxform.py:32-36 | construction fails with KeyError exactly when params lacks `type_db_path`; `active_or_frozen` is kept; the freeze flag holds exactly when `extra_args` is `freeze` |
| `Protoxform.DecideStatusIdempotent` | tools/protoxform/protoxform.py:61-72 | running the decision again on its own result gives the same status |
| `Protoxform.FrozenIsSticky` | tools/protoxform/protoxform.py:66-67 | a FROZEN file comes out FROZEN from every visitor and in every case |
| `Protoxform.ExemptByDeclarations` | tools/protoxform/protoxform.py:53-54 | given one artifact per top-level declaration, a file is exempt exactly when its name starts with `envoy/annotations` or it declares no service, message or enum |
| `Protoxform.FreezeFromParameter` | tools/protoxform/protoxform.py:35 | with params parsed from the plugin's parameter string, freezing is requested exactly when the last `extra_args=` piece is `extra_args=freeze` |

## Left out

- Reading the `CodeGeneratorRequest` from stdin and writing the serialized response to stdout (plugin.py:51-53, 94) are I/O. `GenerateResponse` returns the response's file list instead.
- cProfile instrumentation and the `CPROFILE_*` environment variables (plugin.py:54, 62-64, 80-88) are environment-dependent tooling. The model is the run with profiling off, so no `.profile` entry appears.
- `traverse.traverse_file`, the visitor base class and `migrate.version_upgrade_xform` are not part of this model. They are uninterpreted function parameters, and no traversal order is assumed.
- `str(...)` text rendering of a proto (plugin.py:93, protoxform.py:73) is library printing. `render` is a parameter, and `VisitFile` returns the output proto rather than its text.
- Type database loading (`utils.load_type_db`, `utils.get_type_db`, `utils.load_protos`) is I/O. `next_version_protos` is the set parameter `nextVersionProtos`.
- Protoxform.ProtoFormatVisitor.VisitFile: a name counts as having a next version when it is a key of `next_version_protos`. The truthiness of the value stored under that key is not modelled.
- `ProtoFormatVisitor`'s type-context parameters are dropped. The visitor never reads them.
- `main()` in protoxform.py (the three descriptors and `load_protos`) is configuration wiring, and the model does not compose the visitor with the plugin.
- Plugin.GenerateResponse: an exception raised by an xform or a visitor factory is not modelled, apart from arity errors. Only `traverse_file` raising (`Raised`) and the driver's own errors are.
- Plugin.AddFileEntries: for the same reason, a descriptor's xform or visitor factory can abort the loop only with TypeError.
- Plugin.ApplyDescriptor: the xform and the visitor factory raise nothing but TypeError on an arity mismatch. A raising callback, such as a protoxform visitor's KeyError, is not modelled.
- Plugin.XformYieldsNothing: "the factory's failure still aborts" covers only the TypeError of a mismatched arity, since no other factory failure is modelled.
- Plugin.KeyValue: the ValueError carries the offending piece, not Python's message, which names the element's index and length.
- Plugin.BuildParamsFailure: the error names the first malformed piece, not its index and length as Python's ValueError message does.
- Plugin.FindFileProto: the IndexError carries the requested name, where Python's `list index out of range` names nothing. Exception payloads throughout the model identify the offending piece or name rather than reproducing Python's messages.
- Protocol buffer messages are values here. `copy.deepcopy` followed by an assignment on the copy is a record update, so the input cannot change.
- Plugin.DirectOutputDescriptor: the default `want_params=False` of `direct_output_descriptor` is not modelled. Dafny callers always pass the flag.
- Plugin.CallXform: `Xform` and `VisitorFactory` give every callable exactly one arity. A Python callable with a defaulted params argument accepts both arities and never raises TypeError, and the model cannot express it. The callables protoxform.py:80-90 passes have a single arity.
- Protoxform.ProtoFormatVisitor.DecideStatus: models assertions as enabled. Under `python -O` the `assert` at protoxform.py:69 is skipped, and NEXT_MAJOR_VERSION_CANDIDATE becomes ACTIVE.
- tools/config_validation/validate_fragment.py is not part of this model. It is a wrapper over protobuf and YAML libraries and has no logic of its own.
