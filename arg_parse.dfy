/** `parseArgs` of src/utils/misc.ts: `process.argv.slice(2)` folded into
    key/value entries, then `Object.fromEntries`. scripts/screener.ts calls it;
    screener.mjs and src/server.ts carry the same fold inline. */
module ArgParse {
  import opened JsText

  /** A flag's value: the next token, or JavaScript `true`. */
  datatype ArgValue = Str(s: string) | Flag

  datatype Entry = Entry(key: string, value: ArgValue)

  predicate IsKeyToken(t: string) {
    StartsWith(t, "--")
  }

  /** Token `i` is `--k`. */
  predicate KeyAt(toks: seq<string>, i: nat, k: string)
    requires i < |toks|
  {
    IsKeyToken(toks[i]) && toks[i][2..] == k
  }

  /** `arr[i + 1] && !arr[i + 1].startsWith('--') ? arr[i + 1] : true`. */
  function ValueAfter(toks: seq<string>, i: nat): (v: ArgValue)
    ensures v.Str? ==> v.s != "" && !IsKeyToken(v.s)
  {
    if i + 1 < |toks| && toks[i + 1] != "" && !IsKeyToken(toks[i + 1]) then Str(toks[i + 1]) else Flag
  }

  /** The array the `reduce` has built after the first `n` tokens. */
  function Entries(toks: seq<string>, n: nat): seq<Entry>
    requires n <= |toks|
    decreases n
  {
    if n == 0 then []
    else if IsKeyToken(toks[n - 1]) then Entries(toks, n - 1) + [Entry(toks[n - 1][2..], ValueAfter(toks, n - 1))]
    else Entries(toks, n - 1)
  }

  /** `Object.fromEntries`: entries are defined in order, a later one
      overwriting an earlier one with the same key. */
  function FromEntries(es: seq<Entry>): map<string, ArgValue>
    decreases |es|
  {
    if es == [] then map[]
    else FromEntries(es[..|es| - 1])[es[|es| - 1].key := es[|es| - 1].value]
  }

  /** `process.argv.slice(2)`. */
  function UserArgs(argv: seq<string>): seq<string> {
    if |argv| <= 2 then [] else argv[2..]
  }

  /** `parseArgs(process.argv)`: every key comes from a `--key` token after
      the first two argv elements. */
  function ParseArgs(argv: seq<string>): (r: map<string, ArgValue>)
    ensures forall k :: k in r ==> exists i :: 2 <= i < |argv| && IsKeyToken(argv[i]) && argv[i][2..] == k
  {
    var toks := UserArgs(argv);
    var m := FromEntries(Entries(toks, |toks|));
    assert forall k :: k in m ==> exists i :: 2 <= i < |argv| && IsKeyToken(argv[i]) && argv[i][2..] == k by {
      forall k | k in m ensures exists i :: 2 <= i < |argv| && IsKeyToken(argv[i]) && argv[i][2..] == k {
        PrefixKeys(toks, |toks|, k);
        var i :| 0 <= i < |toks| && KeyAt(toks, i, k);
        assert argv[i + 2] == toks[i];
      }
    }
    m
  }

  /** After `n` tokens, a key is present exactly when one of those tokens is `--key`. */
  lemma {:induction false} PrefixKeys(toks: seq<string>, n: nat, k: string)
    requires n <= |toks|
    ensures k in FromEntries(Entries(toks, n)) <==> exists i :: 0 <= i < n && KeyAt(toks, i, k)
    decreases n
  {
    if n > 0 {
      PrefixKeys(toks, n - 1, k);
      var es := Entries(toks, n - 1);
      if IsKeyToken(toks[n - 1]) {
        var e := Entry(toks[n - 1][2..], ValueAfter(toks, n - 1));
        assert FromEntries(Entries(toks, n)) == FromEntries(es)[e.key := e.value];
        if e.key == k {
          assert KeyAt(toks, n - 1, k);
        } else {
          assert !KeyAt(toks, n - 1, k);
        }
      } else {
        assert !KeyAt(toks, n - 1, k);
        assert Entries(toks, n) == es;
      }
    }
  }

  /** After `n` tokens, a present key holds the value that follows the last
      `--key` token among them. */
  lemma {:induction false} PrefixLastValue(toks: seq<string>, n: nat, k: string)
    requires n <= |toks| && k in FromEntries(Entries(toks, n))
    ensures exists i ::
              && 0 <= i < n && KeyAt(toks, i, k)
              && FromEntries(Entries(toks, n))[k] == ValueAfter(toks, i)
              && (forall j :: i < j < n ==> !KeyAt(toks, j, k))
    decreases n
  {
    var es := Entries(toks, n - 1);
    if IsKeyToken(toks[n - 1]) && toks[n - 1][2..] == k {
      assert KeyAt(toks, n - 1, k);
      assert FromEntries(Entries(toks, n))[k] == ValueAfter(toks, n - 1);
    } else {
      assert !KeyAt(toks, n - 1, k);
      assert FromEntries(Entries(toks, n))[k] == FromEntries(es)[k];
      PrefixLastValue(toks, n - 1, k);
      var i :| 0 <= i < n - 1 && KeyAt(toks, i, k)
        && FromEntries(es)[k] == ValueAfter(toks, i)
        && forall j :: i < j < n - 1 ==> !KeyAt(toks, j, k);
      assert forall j :: i < j < n ==> !KeyAt(toks, j, k);
    }
  }

  /** Every key of the result comes from a `--key` token after the first two
      argv elements, and every such token yields its key. */
  lemma ParseArgsKeys(argv: seq<string>, k: string)
    ensures k in ParseArgs(argv) <==> exists i :: 2 <= i < |argv| && IsKeyToken(argv[i]) && argv[i][2..] == k
  {
    var toks := UserArgs(argv);
    PrefixKeys(toks, |toks|, k);
    if k in ParseArgs(argv) {
      var i :| 0 <= i < |toks| && KeyAt(toks, i, k);
      assert argv[i + 2] == toks[i];
    }
    if exists i :: 2 <= i < |argv| && IsKeyToken(argv[i]) && argv[i][2..] == k {
      var i :| 2 <= i < |argv| && IsKeyToken(argv[i]) && argv[i][2..] == k;
      assert KeyAt(toks, i - 2, k);
    }
  }

  /** When a key repeats, the last occurrence wins: the value is what the
      last `--key` token is followed by (the next token if it is non-empty
      and not itself `--`-prefixed, `true` otherwise). */
  lemma ParseArgsLastWins(argv: seq<string>, i: nat)
    requires 2 <= i < |argv| && IsKeyToken(argv[i])
    requires forall j :: i < j < |argv| ==> !(IsKeyToken(argv[j]) && argv[j][2..] == argv[i][2..])
    ensures argv[i][2..] in ParseArgs(argv)
    ensures ParseArgs(argv)[argv[i][2..]] ==
      if i + 1 < |argv| && argv[i + 1] != "" && !IsKeyToken(argv[i + 1]) then Str(argv[i + 1]) else Flag
  {
    var toks := UserArgs(argv);
    var k := argv[i][2..];
    assert KeyAt(toks, i - 2, k);
    PrefixKeys(toks, |toks|, k);
    PrefixLastValue(toks, |toks|, k);
    var i' :| 0 <= i' < |toks| && KeyAt(toks, i', k)
      && ParseArgs(argv)[k] == ValueAfter(toks, i')
      && forall j :: i' < j < |toks| ==> !KeyAt(toks, j, k);
    assert argv[i' + 2] == toks[i'];
  }

  /** The first two argv elements (the runtime and the script) are ignored. */
  lemma ParseArgsIgnoresProgram(a: string, b: string, c: string, d: string, rest: seq<string>)
    ensures ParseArgs([a, b] + rest) == ParseArgs([c, d] + rest)
  {
    assert UserArgs([a, b] + rest) == rest;
    assert UserArgs([c, d] + rest) == rest;
  }

  /** `args[key]` is truthy. */
  predicate Given(args: map<string, ArgValue>, key: string) {
    key in args && args[key] != Str("")
  }

  /** `Number(args[key] || fallback)`, with `Number` of a string taken as an
      input: an absent key (or an empty string) gives the fallback, a bare
      flag gives `Number(true)`, which is 1. */
  function NumberArg(args: map<string, ArgValue>, key: string, fallback: real, toNumber: string -> JsNumber): (n: JsNumber)
    ensures key !in args ==> n == Num(fallback)
    ensures key in args && args[key] == Flag ==> n == Num(1.0)
    ensures key in args && args[key].Str? && args[key].s != "" ==> n == toNumber(args[key].s)
  {
    if key !in args then Num(fallback)
    else match args[key]
      case Flag => Num(1.0)
      case Str(s) => if s == "" then Num(fallback) else toNumber(s)
  }
}
