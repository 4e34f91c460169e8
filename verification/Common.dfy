module Common {
  type Byte = b: int | 0 <= b < 256

  // The branch of a trie node for the key that ends there; it sorts before every byte.
  const NONE := -1

  datatype Option<+T> = None | Some(value: T)
}
