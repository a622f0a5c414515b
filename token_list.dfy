/**
 * `token_collection_t` of the tokenizers (`adder/gvm_tokenizer.c`,
 * `gvm/gvm_tokenizer.c`, `gvm/gvm_tokenizer.h`, which share the same
 * collection code): the tokens appended so far and the capacity of the
 * allocation holding them. A failed `malloc`/`realloc` is not modelled.
 */
module TokenList {
  class TokenList<T> {
    var items: seq<T>
    var capacity: nat

    /** `tokens_init`: no tokens, room for `capacity`. */
    constructor (capacity: nat)
      ensures items == [] && this.capacity == capacity
    {
      items := [];
      this.capacity := capacity;
    }

    /** `tokens_clear`: the tokens are forgotten, the allocation kept. */
    method Clear()
      modifies this
      ensures items == [] && capacity == old(capacity)
    {
      items := [];
    }

    /**
     * `tokens_append`: when the allocation has no room beyond the next
     * token it grows to twice the new count; then the token goes last and
     * the earlier ones stay. Afterwards there is always a free slot.
     */
    method Append(t: T)
      modifies this
      ensures items == old(items) + [t]
      ensures capacity == if old(capacity) <= |old(items)| + 1 then (|old(items)| + 1) * 2 else old(capacity)
      ensures capacity > |items|
    {
      if capacity <= |items| + 1 {
        capacity := (|items| + 1) * 2;
      }
      items := items + [t];
    }

    /** `tokens_destroy`: no tokens and no allocation. */
    method Destroy()
      modifies this
      ensures items == [] && capacity == 0
    {
      items := [];
      capacity := 0;
    }
  }
}
