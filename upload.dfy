/** The file-upload path of the diff viewer: the outcome of reading every
    selected file, and the rule that merges the files into one diff text. */
module FileUpload {
  import opened Results

  datatype UploadedFile = UploadedFile(name: string, content: string)

  /** What reading one selected file produced: its text, or a read error. */
  datatype FileRead = Loaded(file: UploadedFile) | ReadFailed(name: string)

  /** The message of the error a failed read rejects with. */
  function ReadError(name: string): string {
    "Failed to read file: " + name
  }

  /** Waiting for every read, as Promise.all does: all files in their original
      order, or the error of a failed read (the first failing one in list
      order, every file before it having been read). */
  function Gather(outcomes: seq<FileRead>): (r: Result<seq<UploadedFile>, string>)
    ensures r.Ok? <==> forall i :: 0 <= i < |outcomes| ==> outcomes[i].Loaded?
    ensures r.Ok? ==> |r.value| == |outcomes| && forall i :: 0 <= i < |outcomes| ==> outcomes[i] == Loaded(r.value[i])
    ensures r.Err? ==> exists i :: 0 <= i < |outcomes| && outcomes[i].ReadFailed? && r.error == ReadError(outcomes[i].name)
                                   && forall j :: 0 <= j < i ==> outcomes[j].Loaded?
  {
    if outcomes == [] then Ok([])
    else match outcomes[0]
      case ReadFailed(name) => Err(ReadError(name))
      case Loaded(f) =>
        match Gather(outcomes[1..])
        case Err(e) =>
          assert forall i :: 1 <= i < |outcomes| ==> outcomes[i] == outcomes[1..][i - 1];
          Err(e)
        case Ok(fs) => Ok([f] + fs)
  }

  /** Array.prototype.join. */
  function Join(parts: seq<string>, sep: string): string {
    if |parts| == 0 then ""
    else if |parts| == 1 then parts[0]
    else parts[0] + sep + Join(parts[1..], sep)
  }

  /** Where the `i`-th part starts in Join(parts, sep). */
  function Offset(parts: seq<string>, sep: string, i: nat): nat
    requires i <= |parts|
  {
    if i == 0 then 0 else |parts[0]| + |sep| + Offset(parts[1..], sep, i - 1)
  }

  /** One file's block in the combined text: with several files, a header
      line naming the file precedes its content. */
  function Block(f: UploadedFile, several: bool): string {
    if several then "# File: " + f.name + "\n" + f.content else f.content
  }

  /** The blocks of a batch, in upload order: with several files each block
      is a header line naming the file followed by its content; a single file
      is its content alone. */
  function Blocks(files: seq<UploadedFile>): (r: seq<string>)
    ensures |r| == |files|
    ensures forall i :: 0 <= i < |files| ==> r[i] == Block(files[i], |files| > 1)
    ensures |files| > 1 ==> forall i :: 0 <= i < |files| ==> r[i] == "# File: " + files[i].name + "\n" + files[i].content
    ensures |files| == 1 ==> r == [files[0].content]
  {
    seq(|files|, i requires 0 <= i < |files| => Block(files[i], |files| > 1))
  }

  /** The text a successful upload puts into the input area. */
  function Combine(files: seq<UploadedFile>): (r: string)
    ensures files == [] ==> r == ""
    ensures |files| == 1 ==> r == files[0].content
    ensures |files| > 1 ==> var first := "# File: " + files[0].name + "\n" + files[0].content;
                            |first| < |r| && r[..|first|] == first
  {
    Join(Blocks(files), "\n\n")
  }

  /** Every part sits unchanged at its offset in the joined text. */
  lemma {:induction false} JoinAt(parts: seq<string>, sep: string, i: nat)
    requires i < |parts|
    ensures Offset(parts, sep, i) + |parts[i]| <= |Join(parts, sep)|
    ensures Join(parts, sep)[Offset(parts, sep, i)..Offset(parts, sep, i) + |parts[i]|] == parts[i]
  {
    if |parts| == 1 {
    } else if i == 0 {
      assert Join(parts, sep) == parts[0] + (sep + Join(parts[1..], sep));
    } else {
      var rest := Join(parts[1..], sep);
      var k := Offset(parts[1..], sep, i - 1);
      JoinAt(parts[1..], sep, i - 1);
      assert parts[1..][i - 1] == parts[i];
      var lead := parts[0] + sep;
      assert Join(parts, sep) == lead + rest;
      assert (lead + rest)[|lead| + k..|lead| + k + |parts[i]|] == rest[k..k + |parts[i]|];
    }
  }

  /** Appending a part appends the separator and the part. */
  lemma {:induction false} JoinSnoc(parts: seq<string>, sep: string, last: string)
    requires parts != []
    ensures Join(parts + [last], sep) == Join(parts, sep) + sep + last
  {
    if |parts| == 1 {
      assert (parts + [last])[1..] == [last];
    } else {
      assert (parts + [last])[1..] == parts[1..] + [last];
      JoinSnoc(parts[1..], sep, last);
    }
  }

  /** A single file is taken verbatim, without a header. */
  lemma CombineSingle(f: UploadedFile)
    ensures Combine([f]) == f.content
  {
  }

  /** With several files each file's header and content appear, unchanged and
      in upload order, at the offset given by the blocks before it. */
  lemma CombineKeepsEachFile(files: seq<UploadedFile>, i: nat)
    requires 1 < |files| && i < |files|
    ensures var at := Offset(Blocks(files), "\n\n", i);
            var block := "# File: " + files[i].name + "\n" + files[i].content;
            at + |block| <= |Combine(files)| && Combine(files)[at..at + |block|] == block
  {
    JoinAt(Blocks(files), "\n\n", i);
  }

  /** Adding one more file to a batch of at least two appends a blank line,
      its header and its content: the batch order is kept. */
  lemma CombineAppend(files: seq<UploadedFile>, f: UploadedFile)
    requires 1 < |files|
    ensures Combine(files + [f]) == Combine(files) + "\n\n" + ("# File: " + f.name + "\n" + f.content)
  {
    assert Blocks(files + [f]) == Blocks(files) + [Block(f, true)];
    JoinSnoc(Blocks(files), "\n\n", Block(f, true));
  }

  /** The two-file batch written out: with CombineAppend this fixes the text
      of every batch of two or more files. */
  lemma CombineTwo(f1: UploadedFile, f2: UploadedFile)
    ensures Combine([f1, f2])
         == "# File: " + f1.name + "\n" + f1.content + "\n\n"
          + "# File: " + f2.name + "\n" + f2.content
  {
    var b := Blocks([f1, f2]);
    assert b == [Block(f1, true), Block(f2, true)];
    assert b[1..] == [Block(f2, true)];
    assert Join(b[1..], "\n\n") == Block(f2, true);
    assert Combine([f1, f2]) == Block(f1, true) + "\n\n" + Block(f2, true);
  }

  /** The three-file batch written out. */
  lemma CombineThree(f1: UploadedFile, f2: UploadedFile, f3: UploadedFile)
    ensures Combine([f1, f2, f3])
         == "# File: " + f1.name + "\n" + f1.content + "\n\n"
          + "# File: " + f2.name + "\n" + f2.content + "\n\n"
          + "# File: " + f3.name + "\n" + f3.content
  {
    var b := Blocks([f1, f2, f3]);
    assert b[1..] == [Block(f2, true), Block(f3, true)];
    assert b[1..][1..] == [Block(f3, true)];
    assert Join(b[1..], "\n\n") == Block(f2, true) + "\n\n" + Block(f3, true);
    assert Combine([f1, f2, f3]) == Block(f1, true) + "\n\n" + (Block(f2, true) + "\n\n" + Block(f3, true));
  }
}
