# s21_vector lifecycle model

A Dafny model of the ownership and lifecycle core of the dynamic array
`s21::s21_vector<T>` from the CPP_containers library. A vector owns one
buffer `data_`, counts its live elements in `size_` and the buffer's length in
`capacity_`. The model covers every member of the vector that has a body:
the default, sized, copy, initializer-list and move constructors, the
destructor and the move assignment operator.

- `algorithms.dfy` (module `Algorithms`): the specification function `Repeat`
  and imperative models of `std::fill_n` (`FillN`) and `std::copy` (`CopyN`),
  the two loops that write the constructors' buffers element by element.
- `vector.dfy` (module `S21`): class `Vector<T>` with the fields `data`
  (a nullable `array<T>`), `size` and `capacity`; the object invariant
  `Valid()` (no buffer means size and capacity 0; a buffer is exactly
  `capacity` long and `size <= capacity`); the ghost view `Contents()`
  (`data[..size]`); one constructor or method per source member; and three
  client methods that state, from the contracts of the constructors and of
  `MoveAssign` alone, the deep-copy isolation and the "moved-from vector is
  empty" rules.

Allocation `new value_type[n]` is a fresh Dafny array `new T[n]` whose slots
hold unspecified default values (hence the type characteristic `T(0)`).
Releasing the buffer (`delete[]`) is dropping the reference: the field
becomes `null`. The element default value `value_type()` that the sized
constructor writes is passed in explicitly as `def`.

The model follows the source here: the copy constructor of a vector without
a buffer still allocates a zero-length buffer (`new value_type[0]`), so the copy has a non-null `data`.
The initializer-list constructor reads `items.capacity()`, which
`std::initializer_list` does not provide; the model takes the capacity to be
the number of items, the length of the buffer the same constructor allocates.

## Model

| member | source | states |
|---|---|---|
| `Algorithms.Repeat` | src/s21_vector.hpp:69 | n copies of a value: the result has length n and every position holds that value |
| `Algorithms.FillN` | src/s21_vector.hpp:69 | `fill_n` writes the value into slots [0, n) in order and leaves every later slot untouched |
| `Algorithms.CopyN` | src/s21_vector.hpp:82 | `copy` writes the source range into the front of the buffer in order and leaves every later slot untouched |
| `S21.Vector.constructor` | src/s21_vector.hpp:59-63 | the default vector has no buffer, size 0, capacity 0, no elements, and is valid |
| `S21.Vector.Sized` | src/s21_vector.hpp:65-70 | a fresh buffer of length n, size == capacity == n, every live slot equal to the default value |
| `S21.Vector.Copy` | src/s21_vector.hpp:78-83 | a fresh buffer (so no aliasing with the source) of the source's capacity, the source's size, the source's elements in order, and the source unchanged |
| `S21.Vector.FromList` | src/s21_vector.hpp:85-90 | a fresh buffer with size == capacity == number of items, holding the items in order |
| `S21.Vector.Move` | src/s21_vector.hpp:92-96 | the new vector holds exactly the source's former buffer, size, capacity and elements; the source is left with no buffer, size 0, capacity 0; both are valid |
| `S21.Vector.Destroy` | src/s21_vector.hpp:72-76 | the buffer is released and size and capacity end at 0, from any state |
| `S21.Vector.MoveAssign` | src/s21_vector.hpp:98-113 | self-assignment changes nothing; otherwise the target drops its buffer, takes the source's buffer, size, capacity and elements, the source is reset to no buffer/0/0, and both stay valid |
| `S21.CopyThenWrite` | src/s21_vector.hpp:78-83 | writing into a copy changes the copy only: the copy holds the original's elements with the one slot replaced, in a different buffer, and the original keeps its elements |
| `S21.MoveOutOfCopy` | src/s21_vector.hpp:78-96 | moving out of a copy yields the original's elements and capacity in a buffer distinct from the original's, and leaves the moved-from copy empty |
| `S21.MoveAssignOntoSized` | src/s21_vector.hpp:65-113 | move-assigning onto a vector that owns a buffer replaces its contents and capacity by the source's and leaves the source empty |

## Left out

- `src/s21_list.hpp`: the list header holds only declarations and empty constructor and destructor bodies, and does not compile; there is no behaviour to model.
- The declared vector members without bodies (`at`, `operator[]`, `front`, `back`, `data`, `begin`, `end`, `empty`, `size`, `max_size`, `reserve`, `capacity`, `shrink_to_fit`, `clear`, `insert`, `erase`, `push_back`, `pop_back`, `swap`): no implementation exists, so no growth policy, bounds check or error case can be modelled without inventing it.
- Memory management itself: Dafny is garbage-collected, so `delete[]` is modelled as dropping the reference and allocation as a fresh array; allocation failure and `max_size` limits are not modelled.
- `S21.Vector.Destroy`: sets `data` to null, where the C++ destructor leaves a dangling pointer in an object that is never used again.
- `S21.Vector.MoveAssign`: the `return this;` on line 112 (meant as `return *this`) is not modelled, because the returned reference carries no state; line 102 `data_ delete[];` is modelled as the intended `delete[] data_`.
- Element types with user-defined copy, move or destruction side effects: `T` is a plain value type.
- The inverted include guard, the unused `<iostream>` include and the `const_iterator` alias carry no behaviour.
