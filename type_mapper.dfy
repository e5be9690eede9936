/** The Type Mapper: MF2 vocabulary names (`h-entry`, `h-card`, `h-feed`)
    become JF2 type names (`entry`, `card`, `feed`). */
module TypeMapper {

  /** The MF2 vocabulary prefix for item types. */
  const Prefix: string := "h-"

  /** Strips the `h-` prefix; a name without it is returned unchanged. */
  function MapType(t: string): (r: string)
    ensures Prefix <= t ==> Prefix + r == t
    ensures !(Prefix <= t) ==> r == t
  {
    if Prefix <= t then t[|Prefix|..] else t
  }

  /** Mapping a prefixed name gives back exactly the name after the prefix. */
  lemma MapTypeOfPrefixed(name: string)
    ensures MapType(Prefix + name) == name
  {
    assert (Prefix + name)[|Prefix|..] == name;
  }
}
