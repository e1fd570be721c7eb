/** The parts of an X.509 certificate signing request that the driver writes and the approver reads. */
module X509 {
  import opened Base

  /** An object identifier, one number per arc. */
  type Oid = seq<nat>

  const OID_KEY_USAGE: Oid := [2, 5, 29, 15]
  const OID_SUBJECT_ALT_NAME: Oid := [2, 5, 29, 17]
  const OID_EXTENDED_KEY_USAGE: Oid := [2, 5, 29, 37]

  datatype Extension = Extension(id: Oid, critical: bool, value: Bytes)

  /** A URI as written: `scheme://host`, a path, and the query and fragment with their delimiters. */
  datatype Uri = Uri(scheme: string, host: string, path: string, tail: string) {
    function ToString(): string {
      scheme + "://" + host + path + tail
    }
  }

  /** A parsed signing request. `signed` is the result of the signature check, a foreign call. */
  datatype Csr = Csr(
    commonName: string,
    dnsNames: seq<string>,
    ipAddresses: seq<Bytes>,
    emailAddresses: seq<string>,
    uris: seq<Uri>,
    extensions: seq<Extension>,
    extraExtensions: seq<Extension>,
    signed: bool)
}
