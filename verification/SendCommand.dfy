/**
 The command line of `btrfs send`, as the transfer adapters of crates/adapters/src/btrfs_cli.rs and
 raw_stream.rs build it, and what it says to a program that reads its options as `btrfs send` does.
 */
module SendCommand {
  import opened Wrappers
  import opened Model
  import opened Parent

  /** An argument: a word, or a path. */
  datatype Arg = Word(text: string) | At(path: Path)

  function CloneArgs(clones: seq<Subvolume>): seq<Arg> {
    if clones == [] then []
    else CloneArgs(clones[..|clones| - 1]) + [Word("-c"), At(clones[|clones| - 1].FullPath())]
  }

  function SendArgs(source: Subvolume, selection: ParentSelection): seq<Arg> {
    [Word("send")]
    + (match selection.parent case None => [] case Some(parent) => [Word("-p"), At(parent.FullPath())])
    + CloneArgs(selection.cloneSources) + [At(source.FullPath())]
  }

  /** `send [-p parent] [-c clone]... source` */
  method BuildSendArgs(source: Subvolume, selection: ParentSelection) returns (args: seq<Arg>)
    ensures args == SendArgs(source, selection)
  {
    args := [Word("send")];
    if selection.parent.Some? {
      args := args + [Word("-p"), At(selection.parent.value.FullPath())];
    }
    ghost var front := args;
    var clones := selection.cloneSources;
    for i := 0 to |clones|
      invariant args == front + CloneArgs(clones[..i])
    {
      assert clones[..i + 1][..i] == clones[..i];
      args := args + [Word("-c"), At(clones[i].FullPath())];
    }
    assert clones[..|clones|] == clones;
    args := args + [At(source.FullPath())];
  }

  // ---------------------------------------------------------------------------
  // What it says
  // ---------------------------------------------------------------------------

  datatype Request = Request(parent: Option<Path>, clones: seq<Path>, source: Option<Path>)

  /** Options with their values, at most one `-p`, then the one subvolume to send. */
  function ReadOptions(args: seq<Arg>, so: Request): Option<Request> {
    if args == [] then Some(so)
    else if args[0].At? then if |args| == 1 then Some(so.(source := Some(args[0].path))) else None
    else if |args| == 1 || args[1].Word? then None
    else if args[0].text == "-p" && so.parent == None then ReadOptions(args[2..], so.(parent := Some(args[1].path)))
    else if args[0].text == "-c" then ReadOptions(args[2..], so.(clones := so.clones + [args[1].path]))
    else None
  }

  function ReadSend(args: seq<Arg>): Option<Request> {
    if args != [] && args[0] == Word("send") then ReadOptions(args[1..], Request(None, [], None)) else None
  }

  function Paths(subvols: seq<Subvolume>): (r: seq<Path>)
    ensures |r| == |subvols| && forall i :: 0 <= i < |r| ==> r[i] == subvols[i].FullPath()
  {
    seq(|subvols|, i requires 0 <= i < |subvols| => subvols[i].FullPath())
  }

  /** The command asks for `source` relative to this parent, with all these clone sources, in this order. */
  predicate Requests(args: seq<Arg>, source: Subvolume, selection: ParentSelection) {
    ReadSend(args) == Some(Request(match selection.parent case None => None case Some(p) => Some(p.FullPath()),
                                   Paths(selection.cloneSources), Some(source.FullPath())))
  }

  lemma {:induction false} ReadClones(clones: seq<Subvolume>, rest: seq<Arg>, so: Request)
    ensures ReadOptions(CloneArgs(clones) + rest, so)
         == ReadOptions(rest, so.(clones := so.clones + Paths(clones)))
  {
    if clones == [] {
      assert [] + rest == rest && so.clones + Paths(clones) == so.clones;
    } else {
      var front, last := clones[..|clones| - 1], clones[|clones| - 1];
      var args := [Word("-c"), At(last.FullPath())] + rest;
      assert CloneArgs(clones) + rest == CloneArgs(front) + args;
      ReadClones(front, args, so);
      assert args[2..] == rest;
      assert so.clones + Paths(front) + [last.FullPath()] == so.clones + Paths(clones);
    }
  }

  /** The command line is read as what it was built from. */
  lemma SendArgsSay(source: Subvolume, selection: ParentSelection)
    ensures Requests(SendArgs(source, selection), source, selection)
  {
    var clones, last := CloneArgs(selection.cloneSources), [At(source.FullPath())];
    var none := Request(None, [], None);
    match selection.parent {
      case None =>
        assert SendArgs(source, selection)[1..] == clones + last;
        ReadClones(selection.cloneSources, last, none);
      case Some(parent) =>
        var args := SendArgs(source, selection)[1..];
        assert args == [Word("-p"), At(parent.FullPath())] + (clones + last);
        assert args[2..] == clones + last;
        ReadClones(selection.cloneSources, last, none.(parent := Some(parent.FullPath())));
    }
    assert [] + Paths(selection.cloneSources) == Paths(selection.cloneSources);
  }
}
