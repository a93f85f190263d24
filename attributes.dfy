/**
 * The backlight's sysfs directory: a handful of attribute files, each holding one integer.
 * A name may be a symbolic link to another attribute (the fake directory used for testing
 * links `actual_brightness` to `brightness`); reads and writes both follow the link.
 */
module Attributes {
  import opened Failures

  /** One write performed by the controller: the attribute name it used and the value. */
  type Write = (string, int)

  datatype Directory = Directory(files: map<string, int>, links: map<string, string>)

  /** The file a name stands for, after following one symbolic link. */
  function Resolve(d: Directory, name: string): string {
    if name in d.links then d.links[name] else name
  }

  /** `_get_value`: the integer in the file, or the error of opening a file that is not there. */
  function ReadAttribute(d: Directory, name: string): (r: Result<int>)
    ensures r.Ok? <==> Resolve(d, name) in d.files
    ensures r.Ok? ==> r.value == d.files[Resolve(d, name)]
    ensures r.Err? ==> r.error == FileMissing(name)
  {
    var file := Resolve(d, name);
    if file in d.files then Ok(d.files[file]) else Err(FileMissing(name))
  }

  /** `_set_value`: the file (created if need be) now holds the value. */
  function WriteAttribute(d: Directory, name: string, value: int): (r: Directory)
    ensures r.links == d.links
    ensures r.files.Keys == d.files.Keys + {Resolve(d, name)}
    ensures ReadAttribute(r, name) == Ok(value)
  {
    d.(files := d.files[Resolve(d, name) := value])
  }

  /** The directory after the writes, performed first to last. */
  function ApplyWrites(d: Directory, ws: seq<Write>): Directory
    decreases |ws|
  {
    if ws == [] then d
    else WriteAttribute(ApplyWrites(d, ws[..|ws| - 1]), ws[|ws| - 1].0, ws[|ws| - 1].1)
  }

  /** The directory `FakeBacklightSysfs` creates (rpi_backlight/utils.py). */
  function FakeSysfs(): (d: Directory)
    ensures d.files.Keys == {"bl_power", "brightness", "max_brightness"}
    ensures Resolve(d, "actual_brightness") == Resolve(d, "brightness")
  {
    Directory(map["bl_power" := 0, "brightness" := 255, "max_brightness" := 255],
              map["actual_brightness" := "brightness"])
  }

  /** Reading a name after writing a name for the same file gives the value written. */
  lemma ReadAfterWrite(d: Directory, written: string, read: string, value: int)
    requires Resolve(d, read) == Resolve(d, written)
    ensures ReadAttribute(WriteAttribute(d, written, value), read) == Ok(value)
  {
  }

  /** A write leaves every other file, and the links, as they were. */
  lemma WriteFrame(d: Directory, written: string, read: string, value: int)
    requires Resolve(d, read) != Resolve(d, written)
    ensures ReadAttribute(WriteAttribute(d, written, value), read) == ReadAttribute(d, read)
    ensures WriteAttribute(d, written, value).links == d.links
  {
  }

  /** Writes only ever change files: the links stay. */
  lemma {:induction false} ApplyWritesKeepsLinks(d: Directory, ws: seq<Write>)
    ensures ApplyWrites(d, ws).links == d.links
    decreases |ws|
  {
    if ws != [] {
      ApplyWritesKeepsLinks(d, ws[..|ws| - 1]);
    }
  }

  /**
   * A run of writes that all use one name has the effect of its last write alone; in
   * particular every file that name does not resolve to is untouched.
   */
  lemma {:induction false} ApplyWritesToOneName(d: Directory, ws: seq<Write>, name: string)
    requires ws != []
    requires forall i :: 0 <= i < |ws| ==> ws[i].0 == name
    ensures ApplyWrites(d, ws) == WriteAttribute(d, name, ws[|ws| - 1].1)
    decreases |ws|
  {
    var front := ws[..|ws| - 1];
    if front != [] {
      assert forall i :: 0 <= i < |front| ==> front[i].0 == ws[i].0;
      ApplyWritesToOneName(d, front, name);
      WriteTwice(d, name, front[|front| - 1].1, ws[|ws| - 1].1);
    }
  }

  /** A second write to a name replaces the first. */
  lemma WriteTwice(d: Directory, name: string, first: int, second: int)
    ensures WriteAttribute(WriteAttribute(d, name, first), name, second) == WriteAttribute(d, name, second)
  {
  }

  /** Appending one write to a run applies it last. */
  lemma ApplyWritesSnoc(d: Directory, ws: seq<Write>, w: Write)
    ensures ApplyWrites(d, ws + [w]) == WriteAttribute(ApplyWrites(d, ws), w.0, w.1)
  {
    assert (ws + [w])[..|ws|] == ws;
  }
}
