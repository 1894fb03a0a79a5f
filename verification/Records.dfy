/** The rows and messages the controller and the agents share. */
module Records {
  import opened Basics
  import opened Composition

  datatype KeyKind = Devcontainer | Compose | Name

  datatype Key = Key(kind: KeyKind, value: string)

  /** A row of the bindings table, with its membership. */
  datatype Binding = Binding(
    id: string, agent: string, key: Key, policies: seq<string>, settings: Settings,
    revision: nat, effective: Effective, applied: bool, role: string)
  {
    /** The source hashes this pair; the model keeps the pair. */
    function Assignment(): (nat, Effective) { (revision, effective) }

    predicate HasPolicy(name: string) { name in policies }
  }

  /** An inventory entry, its keys from the most to the least stable. */
  datatype Container = Container(id: string, name: string, keys: seq<Key>)
}
