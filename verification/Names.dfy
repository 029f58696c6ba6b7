/** The canonical name charset, and the mount entry a config declares under such a name. */
module Names {
  import opened Bytes

  const NAME_MAX_BYTES := 64

  predicate NameByte(c: char) { 'a' <= c <= 'z' || '0' <= c <= '9' || c == '-' }

  /** What an address accepts before its colon. */
  predicate Addressable(name: string) { name != "" && forall c | c in name :: NameByte(c) }

  /** What a config accepts as a name: an addressable one, of bounded length, no dash at either end. */
  predicate CheckName(name: string) {
    Addressable(name) && |name| <= NAME_MAX_BYTES && name[0] != '-' && name[|name| - 1] != '-'
  }

  datatype MountEntry = MountEntry(
    name: string, path: string, primary: bool, vault: Option<string>, pin: Option<string>, alias: Option<string>)
}
