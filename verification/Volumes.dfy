/** Pod volumes, the file names the two writers use, and the bytes they write. */
module Volumes {
  import opened Base

  type VolumeId = string

  /** Names of the certificate, key and CA files inside a volume. */
  datatype Names = Names(cert: string, key: string, ca: string)

  datatype Keypair = Keypair(chain: Bytes, key: Bytes)

  /** A managed volume: its file set, empty until first written, and the renewal time in its metadata. */
  datatype Volume = Volume(files: map<string, Bytes>, next: Option<int>)

  /** The argument of WriteFiles. Of equal names the later entry wins. */
  function FileSet(names: Names, cert: Bytes, key: Bytes, ca: Bytes): (files: map<string, Bytes>)
    ensures files.Keys == {names.cert, names.key, names.ca}
    ensures files != map[] && names.ca in files && files[names.ca] == ca
    ensures names.cert in files && names.key in files
    ensures names.ca != names.key ==> files[names.key] == key
    ensures names.ca != names.cert && names.key != names.cert ==> files[names.cert] == cert
  {
    var files := map[][names.cert := cert][names.key := key][names.ca := ca];
    assert names.ca in files;
    files
  }

  predicate HasFile(vol: Volume, name: string, data: Bytes) {
    name in vol.files && vol.files[name] == data
  }

  /** The CA file the pod reads is missing or differs from the bundle. */
  predicate OutOfDate(vol: Volume, caName: string, bundle: Bytes) {
    vol.files != map[] && !HasFile(vol, caName, bundle)
  }
}
