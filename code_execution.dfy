/**
 * The code executor: `CodeExecutionStep.run`, which runs the sanitised
 * script in a subprocess, and the two readers of the binary STL header,
 * `validate_stl_file` and `get_stl_info`.
 */
module CodeExecution {
  import opened Wrappers
  import Config

  /** Python's `os.path.join(directory, name)` on POSIX. */
  function JoinPath(directory: string, name: string): (p: string)
    ensures |name| <= |p| && p[|p| - |name|..] == name
    ensures |name| > 0 && name[0] == '/' ==> p == name
  {
    if |name| > 0 && name[0] == '/' then name
    else if directory == "" || directory[|directory| - 1] == '/' then directory + name
    else directory + "/" + name
  }

  // ---------------------------------------------------------------------
  // Running the script
  // ---------------------------------------------------------------------

  /** How `subprocess.run` ended. */
  datatype Subprocess =
    | Exited(returnCode: int)  // the script ran to its end
    | TimeoutExpired           // it ran longer than the timeout and was killed
    | Raised                   // any other exception

  /** The temporary-file directory, path to contents, as far as `run` touches it. */
  class TempDir {
    var files: map<string, string>

    constructor ()
      ensures files == map[]
    {
      files := map[];
    }
  }

  class CodeExecutionStep {
    const outputDir: string

    constructor (outputDir: string)
      ensures this.outputDir == outputDir
    {
      this.outputDir := outputDir;
    }

    /**
     * `run(code, output_filename)`. The script is written to the fresh
     * temporary file `tempName`; the subprocess is abstract: `spawn` says
     * how running a script with a timeout in a working directory ends, and
     * `produced` holds the paths that exist once it has ended. The path is
     * returned only for exit code 0 AND an existing output file; the
     * temporary file is gone again on every path.
     */
    method Run(code: string, outputFilename: string, tmp: TempDir, tempName: string,
               spawn: (string, nat, string) -> Subprocess, produced: set<string>)
      returns (path: Option<string>)
      requires tempName !in tmp.files
      modifies tmp
      ensures tmp.files == old(tmp.files)
      ensures var outcome := spawn(code, Config.ExecutionTimeout, outputDir);
              path.Some? <==> outcome == Exited(0) && JoinPath(outputDir, outputFilename) in produced
      ensures path.Some? ==> path.value == JoinPath(outputDir, outputFilename)
    {
      tmp.files := tmp.files[tempName := code];
      var outcome := spawn(tmp.files[tempName], Config.ExecutionTimeout, outputDir);
      path := None;
      match outcome {
        case Exited(returnCode) =>
          if returnCode == 0 {
            var stlPath := JoinPath(outputDir, outputFilename);
            if stlPath in produced {
              path := Some(stlPath);
            }
          }
        case TimeoutExpired =>
        case Raised =>
      }
      // the `finally` clause
      if tempName in tmp.files {
        tmp.files := tmp.files - {tempName};
      }
    }
  }

  // ---------------------------------------------------------------------
  // The binary STL header
  // ---------------------------------------------------------------------

  /** A byte of a file. */
  newtype Byte = x: int | 0 <= x < 256

  /** The arbitrary header every binary STL file starts with. */
  const HeaderSize: nat := 80

  /** The width of the little-endian triangle count after the header. */
  const CountSize: nat := 4

  /** `f.read(n)` at offset `pos`: `n` bytes, fewer at the end of the file. */
  function ReadAt(bytes: seq<Byte>, pos: nat, n: nat): (r: seq<Byte>)
    ensures |r| == if pos >= |bytes| then 0 else if pos + n <= |bytes| then n else |bytes| - pos
    ensures forall k :: 0 <= k < |r| ==> r[k] == bytes[pos + k]
  {
    if pos >= |bytes| then [] else if pos + n <= |bytes| then bytes[pos..pos + n] else bytes[pos..]
  }

  /** `int.from_bytes(b, byteorder='little')`. */
  function FromLittleEndian(b: seq<Byte>): nat {
    if |b| == 0 then 0 else b[0] as nat + 256 * FromLittleEndian(b[1..])
  }

  function Pow256(n: nat): (r: nat)
    ensures r > 0
  {
    if n == 0 then 1 else 256 * Pow256(n - 1)
  }

  /** `n.to_bytes(width, byteorder='little')`: the encoding `FromLittleEndian` reads back. */
  function ToLittleEndian(n: nat, width: nat): (b: seq<Byte>)
    requires n < Pow256(width)
    ensures |b| == width
  {
    if width == 0 then [] else [(n % 256) as Byte] + ToLittleEndian(n / 256, width - 1)
  }

  lemma DivBelow(n: nat, m: nat)
    requires n < 256 * m
    ensures n / 256 < m
  {
  }

  lemma DivMod256(n: nat)
    ensures n % 256 + 256 * (n / 256) == n
  {
  }

  lemma SplitByte(x: nat, y: nat)
    requires x < 256
    ensures (x + 256 * y) % 256 == x && (x + 256 * y) / 256 == y
  {
    var q, r := (x + 256 * y) / 256, (x + 256 * y) % 256;
    assert 256 * q + r == 256 * y + x;
    assert 256 * (q - y) == x - r;
  }

  /** Decoding an encoding gives the number back. */
  lemma {:induction false} DecodeEncode(n: nat, width: nat)
    requires n < Pow256(width)
    ensures FromLittleEndian(ToLittleEndian(n, width)) == n
  {
    if width > 0 {
      DivBelow(n, Pow256(width - 1));
      DecodeEncode(n / 256, width - 1);
      var b := ToLittleEndian(n, width);
      assert b[1..] == ToLittleEndian(n / 256, width - 1);
      assert b[0] as nat == n % 256;
      calc {
        FromLittleEndian(b);
        b[0] as nat + 256 * FromLittleEndian(b[1..]);
        n % 256 + 256 * (n / 256);
        { DivMod256(n); }
        n;
      }
    }
  }

  /** Encoding a decoded byte string gives the bytes back; the value fits their width. */
  lemma {:induction false} EncodeDecode(b: seq<Byte>)
    ensures FromLittleEndian(b) < Pow256(|b|)
    ensures ToLittleEndian(FromLittleEndian(b), |b|) == b
  {
    if |b| > 0 {
      EncodeDecode(b[1..]);
      var x, y := b[0] as nat, FromLittleEndian(b[1..]);
      SplitByte(x, y);
      var e := ToLittleEndian(FromLittleEndian(b), |b|);
      assert e == [x as Byte] + ToLittleEndian(y, |b| - 1);
      assert e == [b[0]] + b[1..];
      assert [b[0]] + b[1..] == b;
    }
  }

  /**
   * `validate_stl_file` on the file's contents, None when it does not
   * exist: a missing file, an empty one, a header under 80 bytes or a
   * count under 4 bytes is rejected. The count itself is only printed.
   */
  function ValidateStlFile(file: Option<seq<Byte>>): (ok: bool)
    ensures ok <==> file.Some? && |file.value| >= HeaderSize + CountSize
  {
    match file
    case None => false
    case Some(bytes) =>
      if |bytes| == 0 then false
      else if |ReadAt(bytes, 0, HeaderSize)| < HeaderSize then false
      else if |ReadAt(bytes, HeaderSize, CountSize)| < CountSize then false
      else true
  }

  /** The dictionary `get_stl_info` returns. */
  datatype StlInfo = StlInfo(path: string, size: nat, fileExists: bool, triangleCount: nat)

  /**
   * `get_stl_info`: None for a missing file; otherwise its size and the
   * count read after the header, or 0 when fewer than 4 bytes follow it.
   */
  function GetStlInfo(path: string, file: Option<seq<Byte>>): (info: Option<StlInfo>)
    ensures info.None? <==> file.None?
    ensures info.Some? ==> info.value.path == path && info.value.size == |file.value| && info.value.fileExists
    ensures info.Some? ==>
              info.value.triangleCount ==
                (if |file.value| >= HeaderSize + CountSize
                 then FromLittleEndian(file.value[HeaderSize..HeaderSize + CountSize]) else 0)
  {
    match file
    case None => None
    case Some(bytes) =>
      var countBytes := ReadAt(bytes, HeaderSize, CountSize);
      Some(StlInfo(path, |bytes|, true,
                   if |countBytes| == CountSize then FromLittleEndian(countBytes) else 0))
  }

  /**
   * A file made of any 80-byte header, the 4-byte encoding of a count and
   * any triangle records is valid, and `get_stl_info` reports that count.
   */
  lemma {:induction false} StlHeaderRoundTrip(path: string, header: seq<Byte>, count: nat, records: seq<Byte>)
    requires |header| == HeaderSize && count < Pow256(CountSize)
    ensures var file := Some(header + ToLittleEndian(count, CountSize) + records);
            && ValidateStlFile(file)
            && GetStlInfo(path, file).value.triangleCount == count
  {
    var bytes := header + ToLittleEndian(count, CountSize) + records;
    assert bytes[HeaderSize..HeaderSize + CountSize] == ToLittleEndian(count, CountSize);
    DecodeEncode(count, CountSize);
  }

  /** The reported count always fits in 32 bits. */
  lemma TriangleCountFits(path: string, file: Option<seq<Byte>>)
    requires file.Some?
    ensures GetStlInfo(path, file).value.triangleCount < 0x1_0000_0000
  {
    if |file.value| >= HeaderSize + CountSize {
      EncodeDecode(file.value[HeaderSize..HeaderSize + CountSize]);
    }
  }
}
