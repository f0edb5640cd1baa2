/**
 * filterFlags (cmd/pgxgen/main.go): removes pgxgen's own configuration flags, together with the
 * value that follows each of them, from the argument list handed on to sqlc.
 */
module Flags {
  import opened Strings

  /** An argument that names one of the two configuration flags. */
  predicate IsConfigFlag(arg: string) {
    Contains(arg, "pgxgen-config") || Contains(arg, "sqlc-config")
  }

  /** The arguments kept: a configuration flag and the argument after it are skipped. */
  function Kept(args: seq<string>): seq<string>
    decreases |args|
  {
    if |args| == 0 then []
    else if IsConfigFlag(args[0]) then (if |args| >= 2 then Kept(args[2..]) else [])
    else [args[0]] + Kept(args[1..])
  }

  /** filterFlags, with os.Args passed in as `args`. */
  method FilterFlags(args: seq<string>) returns (res: seq<string>)
    ensures res == Kept(args)
    ensures |res| <= |args|
    ensures forall k :: 0 <= k < |res| ==> !IsConfigFlag(res[k]) && res[k] in args
  {
    res := [];
    var i := 0;
    while i < |args|
      invariant 0 <= i <= |args| + 1
      invariant res + (if i <= |args| then Kept(args[i..]) else []) == Kept(args)
    {
      if IsConfigFlag(args[i]) {
        if i + 1 < |args| {
          assert args[i..][2..] == args[i + 2..];
        }
        i := i + 1;
        i := i + 1;
        continue;
      }
      assert args[i..][1..] == args[i + 1..];
      res := res + [args[i]];
      i := i + 1;
    }
    KeptProperties(args);
  }

  lemma {:induction false} KeptProperties(args: seq<string>)
    ensures |Kept(args)| <= |args|
    ensures forall k :: 0 <= k < |Kept(args)| ==> !IsConfigFlag(Kept(args)[k]) && Kept(args)[k] in args
    decreases |args|
  {
    if |args| > 0 {
      if IsConfigFlag(args[0]) {
        if |args| >= 2 {
          KeptProperties(args[2..]);
          forall k | 0 <= k < |Kept(args)| ensures Kept(args)[k] in args {
            assert Kept(args)[k] in args[2..];
          }
        }
      } else {
        KeptProperties(args[1..]);
        forall k | 1 <= k < |Kept(args)| ensures Kept(args)[k] in args {
          assert Kept(args)[k] == Kept(args[1..])[k - 1];
          assert Kept(args)[k] in args[1..];
        }
      }
    }
  }

  /** With no configuration flag present every argument is kept, in order. */
  lemma {:induction false} KeptWithoutFlags(args: seq<string>)
    requires forall k :: 0 <= k < |args| ==> !IsConfigFlag(args[k])
    ensures Kept(args) == args
    decreases |args|
  {
    if |args| > 0 {
      KeptWithoutFlags(args[1..]);
      assert args == [args[0]] + args[1..];
    }
  }

  /** A flag is dropped together with its value; what follows is filtered the same way. */
  lemma DropsFlagAndValue(flag: string, value: string, rest: seq<string>)
    requires IsConfigFlag(flag)
    ensures Kept([flag, value] + rest) == Kept(rest)
  {
    assert ([flag, value] + rest)[2..] == rest;
  }
}
