// What the agent asks of libraries and of the machine it runs on, as
// uninterpreted total functions: any host whatsoever.
module Hosts {
  import opened Bytes
  import opened Wrappers

  // The fields of an X.509 certificate the renewer looks at; instants in
  // nanoseconds.
  datatype Leaf = Leaf(notBefore: int, notAfter: int, dnsNames: seq<string>)

  datatype Url = Url(scheme: string, host: string)

  datatype Host = Host(
    parseCertificate: bytes -> Option<Leaf>,
    userId: string -> Option<nat>,
    groupId: string -> Option<nat>,
    parseUrl: string -> Option<Url>,
    isDuration: string -> bool)
}
