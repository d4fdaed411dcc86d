/**
 * Identities used by the live-document registry: interned identifiers, the
 * identifier pack a node carries, crate-module keys, file ids and node pointers.
 */
module LiveIds {
  import opened Wrappers

  /** An interned identifier. The value 0 is the empty identifier. */
  type Id = nat

  const EMPTY_ID: Id := 0
  /** The reserved identifiers the registry compares against. */
  const SELF: Id := 1
  const COMPONENT: Id := 2
  const ENUM: Id := 3
  const STRUCT: Id := 4
  const SHADER: Id := 5
  const VARIANT: Id := 6
  /** The `crate` keyword in a `use` path: stands for the importing crate. */
  const CRATE_KW: Id := 7

  /** A file's index in the registry's parallel vectors of files and expanded documents. */
  type FileId = nat

  /** A node address inside one document: its nesting level and its index in that level. */
  datatype LocalPtr = LocalPtr(level: nat, index: nat)

  /** A node address in another document. */
  datatype FullPtr = FullPtr(file: FileId, local: LocalPtr)

  /** The identifier a node carries, or the value of an identifier reference. */
  datatype IdPack =
    | Empty
    | Single(id: Id)
    | Multi(start: nat, count: nat)          // a path `a::b::c` held in the multi-id table
    | Ptr(file: FileId, level: nat, index: nat) // a resolved node pointer

  /** The key of one source module. */
  datatype CrateModule = CrateModule(crateId: Id, moduleId: Id)

  /** A token reference: the file and the position in its token table. */
  datatype TokenId = TokenId(file: FileId, index: nat)

  const SELF_PACK: IdPack := Single(SELF)

  /** The built-in root kinds, which can never be resolved on the scope. */
  predicate IsBaseclass(id: IdPack)
  {
    id == Single(COMPONENT) || id == Single(ENUM) || id == Single(STRUCT)
    || id == Single(SHADER) || id == Single(VARIANT)
  }

  /** `IdPack::node_ptr`: the pack that holds a resolved pointer. */
  function NodePtr(file: FileId, p: LocalPtr): IdPack
  {
    Ptr(file, p.level, p.index)
  }
}
