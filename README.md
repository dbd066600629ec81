# basic-redis in Dafny

A model of `basic-redis`, a single-file Java key-value store
(`basic-redis/src/Database.java`) driven by a line protocol
(`GET`, `SET`, `DEL`, `INCR`, `DELVALUE`, `MULTI`, `EXEC`, `DISCARD`).

- `optional.dfy`: module `Optional`, Java's `Optional<T>` as `Option<T>`.
- `java_int.dfy`: module `JavaInt`, Java's 32-bit `int` as the newtype `int32`.
  It has `x + 1` with wrap-around (`Succ`), `Integer.parseInt` (`ParseInt`, ASCII
  digits, optional sign, range-checked) and `Integer.toString` (`ToDecimal`,
  `NatToDecimal`). It also proves that `ParseInt` reads back what `ToDecimal` writes.
- `store.dfy`: module `Store`, the `Map<String, Integer>` behind `hashTable` as a
  Dafny `map<string, int32>`. The updates the class makes are functions here
  (`Increment`, `RemoveValue`), with their properties stated and proved.
- `database.dfy`: module `Redis`, the `Database` class with a `hashTable` field
  that its methods update in place. `IncrementValueForKey` and `DeleteValue` are
  proved against `Store.Increment` and `Store.RemoveValue`; the other methods
  state their new map with Dafny's own map update and removal. It also holds
  `HandleGetCommand` and the class's JUnit tests restated as small client methods
  (`Test...`) that check the expected values from the contracts alone.
- `session.dfy`: module `Session`, the command loop of `main`. `Step` is one line,
  `Run` is a fold over a finite sequence of lines, and `Dispatch`/`Serve` run the
  same loop on a `Database` object and are proved equal to `Step`/`Run`.

Redis's own `MULTI` queues the commands that follow it, runs them all on
`EXEC` and drops them on `DISCARD`, replying `ERR EXEC without MULTI` outside a
block. This program does not, and its comments at
`basic-redis/src/Database.java:187-189` and `:210-213` say the intended
behaviour was unclear to its author. The model follows the code as written:
- every line inside the `MULTI` block reaches the store at once, and `DISCARD`
  undoes nothing (`Session.DiscardKeepsEffects`);
- the block is never left; each `EXEC` or `DISCARD` only starts a fresh queue
  (`Session.NormalUntilMulti`, `Session.ClosingReportsRound`);
- the queue counts every line except `GET`, `EXEC` and `DISCARD`, so unknown
  verbs and a nested `MULTI` are counted too;
- before the first `MULTI`, `EXEC`, `DISCARD` and unknown verbs are silently ignored;
- values are Java `int`s (32-bit), and `INCR` wraps from 2147483647 to -2147483648.

## Model

| member | source | states |
|---|---|---|
| JavaInt.Succ | basic-redis/src/Database.java:42 | `v + 1` on a Java `int` is congruent to the true successor modulo 2^32. It is the plain successor below `MAX_VALUE` and `MIN_VALUE` at `MAX_VALUE`. |
| JavaInt.NatToDecimal | basic-redis/src/Database.java:218 | The printed count is canonical decimal: at least one digit, no leading zero unless it is "0", and it starts with '0' iff the number is 0. Its value is the count by `JavaInt.DecimalRoundTrip`. |
| JavaInt.DecimalRoundTrip | basic-redis/src/Database.java:218 | The digits printed for a count denote exactly that count: `DigitsValue(NatToDecimal(n)) == n`. |
| JavaInt.CanonicalIsNatToDecimal | basic-redis/src/Database.java:226 | Every canonical digit string is `NatToDecimal` of its value, so a count has exactly one printed form. |
| JavaInt.ParseInt | basic-redis/src/Database.java:158 | `Integer.parseInt`: it succeeds iff the text is an optional '-' or '+' followed by at least one digit and the signed value fits in 32 bits, and then the result is that signed value. So "1a", "-x", "+-1", the empty string, a lone sign and out-of-range numbers are errors (None), while "+5" and "-05" parse. Its round trip with printing is `JavaInt.ToDecimal`. |
| JavaInt.ToDecimal | basic-redis/src/Database.java:139 | A printed value is canonical decimal with '-' exactly when it is negative (no "-0"), and `Integer.parseInt` (as `ParseInt`) reads it back as the same value. |
| JavaInt.ToDecimalIsUnique | basic-redis/src/Database.java:139 | Any canonical signed text that parses to `x` equals `ToDecimal(x)`, so `ToDecimal` is exactly the text `Integer.toString` writes. |
| Store.Increment | basic-redis/src/Database.java:38-43 | After increment the key is present. An absent key ends at 1. A present value below `MAX_VALUE` goes up by 1, and `MAX_VALUE` wraps to `MIN_VALUE`. Every other key keeps its value. |
| Store.IncrementFromAbsent | basic-redis/src/Database.java:38-43 | `n` increments of an absent key (1 <= n <= MAX_VALUE) leave it at `n` and change nothing else. |
| Store.RemoveValue | basic-redis/src/Database.java:49-51 | Exactly the keys holding `v` are removed. Every surviving entry keeps its value, none holds `v`, if no key held `v` the map is unchanged, and the size drops by exactly the number of keys that held `v`. |
| Redis.Database.constructor | basic-redis/src/Database.java:22-24 | A new database is empty. |
| Redis.Database.GetValueOfKey | basic-redis/src/Database.java:26-32 | The result is empty iff the key is absent, and otherwise it is the stored value, i.e. `Store.Lookup` of the map. The method modifies nothing. |
| Redis.Database.SetValueForKey | basic-redis/src/Database.java:34-36 | The key maps to the value and other keys are unchanged. The size grows by one iff the key was absent. |
| Redis.Database.IncrementValueForKey | basic-redis/src/Database.java:38-43 | The two-step Java code (set 0 if absent, then set get()+1) yields `Store.Increment` of the old map. |
| Redis.Database.DeleteKey | basic-redis/src/Database.java:45-47 | The key becomes absent and other keys keep presence and value. If the key was absent the map is identical. The size drops by one iff the key was present. |
| Redis.Database.DeleteValue | basic-redis/src/Database.java:49-51 | The new map is `Store.RemoveValue` of the old one, and the size drops by the number of matching keys. |
| Redis.Database.GetSize | basic-redis/src/Database.java:53-55 | The result is the number of keys present. |
| Redis.HandleGetCommand | basic-redis/src/Database.java:135-141 | The line is `<nil>` iff the value is absent. Otherwise it is the canonical decimal `ToDecimal` of the value and parses back to it. |
| Session.CountReply | basic-redis/src/Database.java:209-229 | `NOT IN TRANSACTION` iff the queue is empty. Otherwise the canonical decimal digits of the queue size (no leading zero). |
| Session.Execute | basic-redis/src/Database.java:150-171 | The switch over the data verbs, shared by the if-chain at :190-207. Only GET prints, exactly one line, the `HandleGetCommand` rendering of the lookup, and it leaves the store alone. Verbs other than SET/DEL/INCR/DELVALUE leave the store unchanged. |
| Session.Step | basic-redis/src/Database.java:146-231 | One line read by `main`. The store changes exactly as `Execute` says, whatever the mode. From Normal, MULTI enters the block with an empty queue and every other line stays Normal and prints what `Execute` prints (GET's value or `<nil>`, nothing for the rest). Inside the block, EXEC/DISCARD print `CountReply` of the queue's length, keep the store and reset the queue to empty. Any other line prints what `Execute` prints and appends itself to the queue unless it is GET. At most one line is printed. Its multi-line properties are `StoreIgnoresMode`, `NormalUntilMulti`, `QueueGrows` and `ClosingReportsRound`, joined by `RunAppend`. |
| Session.Run | basic-redis/src/Database.java:146-231 | The loop over a finite input, one `Step` per line. Once in the block it stays there. |
| Session.RunPrintsAtMostOnePerLine | basic-redis/src/Database.java:146-231 | A run prints at most one line per input line: only GET, EXEC and DISCARD print, one line each. |
| Session.NormalIgnoresOtherVerbs | basic-redis/src/Database.java:150-231 | Before any MULTI, a line whose verb matches no case changes nothing and prints nothing. This includes EXEC and DISCARD. |
| Session.MultiActsLikeNormal | basic-redis/src/Database.java:190-207 | Inside MULTI, GET/SET/DEL/INCR/DELVALUE change the store and print exactly as outside it, and the loop stays in the block. |
| Session.StoreIgnoresMode | basic-redis/src/Database.java:146-231 | Over any input, from either mode, the final store is every line's data command applied in order. Nothing is deferred or undone. |
| Session.NormalUntilMulti | basic-redis/src/Database.java:173-176 | After a sequence of lines from a fresh session, the loop is outside the block iff no line was MULTI. Once entered, the block is never left. |
| Session.QueueGrows | basic-redis/src/Database.java:176-186 | With no EXEC or DISCARD, the queue grows by exactly the lines that are not GET/EXEC/DISCARD, in order. |
| Session.ClosingReportsRound | basic-redis/src/Database.java:176-229 | EXEC or DISCARD after a round prints the number of queued lines of that round, or NOT IN TRANSACTION if there are none. It then starts an empty queue and leaves the store as all the round's commands made it. |
| Session.RunAppend | basic-redis/src/Database.java:146-231 | Reading `a` and then `b` is the run over `b` continued from the mode and store after `a`, with the printed lines concatenated. This lets the block lemmas be applied after the MULTI that opens a session's block. It is proved through `Session.Fold`, a fold over lines with an arbitrary step function (`Session.FoldAppend`), of which `Run` is the instance for `Step` (`Session.RunIsFold`). |
| Session.DiscardScriptQueuesSet | basic-redis/src/Database.java:173-207 | After MULTI, SET k v, the SET is in the queue and already in the store, and nothing has been printed. |
| Session.DiscardScriptReports | basic-redis/src/Database.java:176-220 | DISCARD then prints "1" for the one queued line, empties the queue and leaves `k` set to `v`. |
| Session.DiscardKeepsEffects | basic-redis/src/Database.java:190-220 | MULTI, SET k v, DISCARD, GET k prints "1" then v: the discarded SET stays in effect. |
| Session.ExecuteOn | basic-redis/src/Database.java:150-171 | The switch over the data verbs, run on the object, changes the map and prints as `Execute` specifies. |
| Session.Dispatch | basic-redis/src/Database.java:150-231 | Handling one line on the object gives the mode, map and output of `Step`. |
| Session.Serve | basic-redis/src/Database.java:143-233 | `main` on a fresh database over a finite input ends in the mode, map and output of `Run` from Normal and the empty map. |

## Left out

- Reading lines with `Scanner` and writing with `System.out.println` are I/O. Each line arrives as its tokens (`Line = seq<string>`) and printed lines are returned as a `seq<string>`.
- `String.split(" ")` itself is not modelled; the tokens it yields are the input.
- The two `while (true)` loops of `main` have no exit. On a finite input they end only when `scanner.nextLine()` throws `NoSuchElementException` at end of input; the model handles a finite input and ends normally, without modelling that exception. `Serve` uses one loop with a mode variable in place of the nested normal-mode and block loops.
- Java exceptions on malformed input end the program. These are a missing operand (`ArrayIndexOutOfBoundsException`), a line made only of spaces (an empty token array), and a non-integer operand (`NumberFormatException`). `Session.WellFormed` excludes them: it is a precondition of `Execute` and `Step`, and the constraint of the line type `Session.ValidLine` that `Run` and `Serve` read.
- `JavaInt.ParseInt` accepts only ASCII digits. `Integer.parseInt` also accepts other Unicode decimal digits.
- The queue holds each line's tokens rather than the raw line text. Only its size is ever observed.
- Redis.Database.GetSize: returns an unbounded `nat`. `HashMap.size()` returns an `int`, so its range above `Integer.MAX_VALUE` is not captured.
- `HashMap` hashing and iteration, and the mechanics of `values().removeAll(Collections.singleton(v))`, are abstracted to Dafny map operations.
- The JUnit `@Test` methods and `java.util.Random` are not modelled as code. Their expectations are restated as the `Redis.Test...` client methods, with the random draws as parameters.
