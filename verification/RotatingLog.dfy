/** The log file of a detached instance and its rotation (internal/host/logfile.go). */
module RotatingLog {
  import opened Common
  import opened Bytes

  /** What the two files hold. */
  datatype Files = Files(rotated: seq<Byte>, current: seq<Byte>)
  {
    function All(): seq<Byte> {
      rotated + current
    }
  }

  function Rotate(f: Files): Files {
    Files(f.current, [])
  }

  function OpenNext(f: Files, max: nat): Files {
    if |f.current| >= max then Rotate(f) else f
  }

  function WriteNext(f: Files, max: nat, p: seq<Byte>): Files {
    var ready := if |f.current| > 0 && |f.current| + |p| > max then Rotate(f) else f;
    ready.(current := ready.current + p)
  }

  /** A log that was opened and then written without errors. */
  function After(f: Files, max: nat, writes: seq<seq<Byte>>): Files {
    if writes == [] then OpenNext(f, max)
    else WriteNext(After(f, max, writes[..|writes| - 1]), max, writes[|writes| - 1])
  }

  ghost predicate IsSuffix(s: seq<Byte>, all: seq<Byte>) {
    |s| <= |all| && s == all[|all| - |s|..]
  }

  /** What is kept is the newest part of everything, and all of it or at least `max` bytes. */
  ghost predicate Keeps(f: Files, max: nat, all: seq<Byte>) {
    && IsSuffix(f.All(), all)
    && (f.All() == all || |f.All()| >= max)
  }

  lemma WriteKeeps(f: Files, max: nat, all: seq<Byte>, p: seq<Byte>)
    requires Keeps(f, max, all)
    ensures Keeps(WriteNext(f, max, p), max, all + p)
  {
    hide IsSuffix;
    TailIsSuffix(f.rotated, f.current, all);
    AppendIsSuffix(f.current, all, p);
    AppendIsSuffix(f.All(), all, p);
    Regroup(f.rotated, f.current, p);
    assert [] + (f.current + p) == f.current + p && [] + p == p;
    assert WriteNext(f, max, p).All() == (if |f.current| > 0 && |f.current| + |p| > max then f.current else f.All()) + p;
  }

  lemma TailIsSuffix(a: seq<Byte>, b: seq<Byte>, all: seq<Byte>)
    requires IsSuffix(a + b, all)
    ensures IsSuffix(b, all)
  {
    assert b == (a + b)[|a|..];
  }

  lemma AppendIsSuffix(s: seq<Byte>, all: seq<Byte>, p: seq<Byte>)
    requires IsSuffix(s, all)
    ensures IsSuffix(s + p, all + p)
  {
  }

  /**
    After any writes the rotated file followed by the current one is a suffix of everything ever
    appended, and no shorter than `max` bytes unless there never were as many.
  */
  lemma {:induction false} Retention(f: Files, max: nat, writes: seq<seq<Byte>>)
    ensures Keeps(After(f, max, writes), max, f.All() + Concat(writes))
    ensures |After(f, max, writes).All()| >= if max < |f.All() + Concat(writes)| then max else |f.All() + Concat(writes)|
    decreases |writes|
  {
    if writes == [] {
      assert f.All() + [] == f.All();
      assert Rotate(f).All() == f.current;
    } else {
      var before, last := writes[..|writes| - 1], writes[|writes| - 1];
      Retention(f, max, before);
      WriteKeeps(After(f, max, before), max, f.All() + Concat(before), last);
      ConcatSnoc(before, last);
      assert writes == before + [last];
      Regroup(f.All(), Concat(before), last);
    }
  }

  /** The current file stays within `max`, unless it consists of one single larger write. */
  lemma {:induction false} CurrentIsBounded(f: Files, max: nat, writes: seq<seq<Byte>>)
    ensures var current := After(f, max, writes).current;
      |current| <= max || (|writes| > 0 && current == writes[|writes| - 1])
    decreases |writes|
  {
    if writes != [] {
      var before, last := writes[..|writes| - 1], writes[|writes| - 1];
      CurrentIsBounded(f, max, before);
      assert [] + last == last;
    }
  }

  /** The log itself. Every file operation can fail; a write can be cut short. */
  class RotatingLog {
    const max: nat
    var files: Files               // what the two paths hold
    var present: bool               // there is a file at the current path
    var open: bool                 // the log's handle is usable
    var size: nat
    ghost var appended: seq<Byte>  // all bytes that ever reached a file
    ghost var failed: bool         // an operation has failed

    /** Errors lose no byte that reached a file, except to the rotation itself. */
    ghost predicate Valid()
      reads this
    {
      && IsSuffix(files.All(), appended)
      && (open ==> present)
      && (present ==> size == |files.current|)
      && (!present ==> files.current == [])
      && (!failed ==> open && Keeps(files, max, appended))
    }

    /** OpenRotatingLog on the files that are there. */
    constructor (max: nat, files: Files, present: bool)
      requires !present ==> files.current == []
      ensures Valid() && this.max == max && (failed <==> !open)
      ensures !failed ==> this.files == OpenNext(files, max) && appended == files.All()
    {
      this.max, this.files, this.present, open, size := max, files, present, false, |files.current|;
      appended, failed := files.All(), false;
      new;
      assert Keeps(files, max, appended);
      OpenFile();
      if open && size >= max {
        assert Keeps(Rotate(files), max, appended);
        RotateFile();
      }
    }

    /** Opens the current path, creating the file if needed. */
    method OpenFile()
      requires present ==> size == |files.current|
      requires !present ==> files.current == []
      modifies `present, `open, `size, `failed
      ensures failed ==> old(failed) || !open
      ensures open ==> present && size == |files.current| && failed == old(failed)
      ensures !open ==> failed && present == old(present) && size == old(size)
    {
      open := *;
      if open {
        present, size := true, |files.current|;
      } else {
        failed := true;
      }
    }

    method RotateFile()
      requires IsSuffix(files.All(), appended)
      requires present ==> size == |files.current|
      requires !present ==> files.current == []
      requires !failed ==> open && present
      modifies `files, `present, `open, `size, `failed
      ensures IsSuffix(files.All(), appended)
      ensures failed <==> old(failed) || !open
      ensures !failed ==> files == Rotate(old(files))
      ensures open ==> present && size == |files.current| == 0
      ensures present ==> size == |files.current|
      ensures !present ==> files.current == []
    {
      open := false;
      var renames: bool := *;
      if present && !renames {
        failed := true;
        return;
      }
      if present {
        assert files.current == files.All()[|files.rotated|..];
        assert Rotate(files).All() == files.current;
        files, present := Rotate(files), false;
      }
      OpenFile();
    }

    /** A write to the current file, which can be cut short. */
    method Append(p: seq<Byte>) returns (n: nat, ok: bool)
      requires IsSuffix(files.All(), appended)
      requires open && present && size == |files.current|
      modifies `files, `size, `appended, `failed
      ensures IsSuffix(files.All(), appended)
      ensures n <= |p| && appended == old(appended) + p[..n] && (ok <==> n == |p|)
      ensures files == old(files).(current := old(files).current + p[..n]) && size == |files.current|
      ensures failed <==> old(failed) || !ok
    {
      n :| n <= |p|;
      ok := n == |p|;
      SuffixAppend(files, appended, p[..n]);
      files, size := files.(current := files.current + p[..n]), size + n;
      appended := appended + p[..n];
      if !ok { failed := true; }
    }

    /** Without errors the files change as specified; `n` bytes are appended in any case. */
    method Write(p: seq<Byte>) returns (n: nat, ok: bool)
      requires Valid()
      modifies this
      ensures Valid()
      ensures n <= |p| && appended == old(appended) + p[..n]
      ensures ok ==> n == |p|
      ensures !failed <==> ok && !old(failed)
      ensures !failed ==> files == WriteNext(old(files), max, p)
    {
      hide IsSuffix, Keeps;
      n, ok := 0, false;
      assert p[..0] == [] && appended + [] == appended && p[..|p|] == p;
      if !failed { WriteKeeps(files, max, appended, p); }
      if size > 0 && size + |p| > max { RotateFile(); }
      if open {
        n, ok := Append(p);
      } else {
        failed := true;
      }
    }
  }

  lemma SuffixAppend(f: Files, all: seq<Byte>, p: seq<Byte>)
    requires IsSuffix(f.All(), all)
    ensures IsSuffix(f.(current := f.current + p).All(), all + p)
  {
    AppendIsSuffix(f.All(), all, p);
    Regroup(f.rotated, f.current, p);
  }
}
