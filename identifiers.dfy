/** Minecraft's namespaced resource key. */
module Identifiers {

  /** A namespaced key; equality is equality of both parts. */
  datatype Identifier = Identifier(namespace: string, path: string)

  /** The mod's namespace. Its value is defined outside the modelled files;
      the model only relies on the two fixed list identifiers being distinct. */
  const Namespace: string := "symbol_chat"

  /** Identifier of the mutable favorites list. */
  const FavoritesId: Identifier := Identifier(Namespace, "favorites")

  /** Identifier of the mutable custom-kaomojis list. */
  const CustomKaomojisId: Identifier := Identifier(Namespace, "custom_kaomojis")

  /** The identifiers every reload seeds the list cache with. */
  const Seeded: set<Identifier> := {FavoritesId, CustomKaomojisId}
}
