/** The parts of a protobuf `FileDescriptorProto` that the protoxform visitor
    and the plugin driver read or write. */
module Descriptor {

  /** `udpa.annotations.PackageVersionStatus`, the value stored in the file
      option extension `udpa.annotations.file_status`. */
  datatype VersionStatus = Unknown | Frozen | Active | NextMajorVersionCandidate

  datatype ServiceProto = ServiceProto(name: string)
  datatype EnumProto = EnumProto(name: string)
  datatype MessageProto = MessageProto(name: string)

  /** A file descriptor: its path name (e.g. "envoy/config/core/v3/base.proto"),
      its proto package, its top-level declarations, and the package version
      status read from its file options. */
  datatype FileProto = FileProto(
    name: string,
    package: string,
    services: seq<ServiceProto>,
    enums: seq<EnumProto>,
    messages: seq<MessageProto>,
    status: VersionStatus)
}
