/** `hexdigest(path, algorithm)` of scripts/utils/digest.py as the batch
    renamers use it: the algorithm name is checked first, then the file is
    opened. The hash function itself is a parameter: a `Hasher` stands for
    hashing a file's bytes with one of the four algorithms. */
module Digest {
  import opened Py
  import opened PyText
  import opened FsTree

  datatype Algorithm = Md5 | Sha1 | Sha256 | Sha512

  /** The hash of the file at a path, as lowercase hexadecimal text. */
  type Hasher = (Algorithm, RelPath) -> string

  /** `match algorithm.strip().lower()` in `Digest.set_algorithm` */
  function AlgorithmOf(name: string): (r: Result<Algorithm>)
    ensures r.Err? ==> r.error == ValueError("value '" + name + "' is invalid, expect 'md5', 'sha1', 'sha256' or 'sha512'.")
    ensures r == Ok(Md5) <==> Lower(Strip(name)) == "md5"
    ensures r == Ok(Sha1) <==> Lower(Strip(name)) == "sha1"
    ensures r == Ok(Sha256) <==> Lower(Strip(name)) == "sha256"
    ensures r == Ok(Sha512) <==> Lower(Strip(name)) == "sha512"
  {
    var key := Lower(Strip(name));
    if key == "md5" then Ok(Md5)
    else if key == "sha1" then Ok(Sha1)
    else if key == "sha256" then Ok(Sha256)
    else if key == "sha512" then Ok(Sha512)
    else Err(ValueError("value '" + name + "' is invalid, expect 'md5', 'sha1', 'sha256' or 'sha512'."))
  }

  /** The number of hexadecimal digits `hexdigest()` returns: twice the
      digest size in bytes. */
  function HexLength(a: Algorithm): nat {
    match a
    case Md5 => 32
    case Sha1 => 40
    case Sha256 => 64
    case Sha512 => 128
  }

  predicate IsHexDigit(c: char) {
    '0' <= c <= '9' || 'a' <= c <= 'f'
  }

  predicate IsHex(s: string) {
    forall k :: 0 <= k < |s| ==> IsHexDigit(s[k])
  }

  /** What `hashlib`'s `hexdigest()` returns: as many hexadecimal digits as
      the algorithm's digest size calls for. */
  predicate IsHexDigest(a: Algorithm, d: string) {
    |d| == HexLength(a) && IsHex(d)
  }

  /** `hexdigest(path, algorithm)`: a `ValueError` for an unknown algorithm;
      otherwise `open(path, 'rb')` fails on a directory or a missing path,
      and a file is hashed. */
  function HexDigest(root: Node, p: RelPath, algorithm: string, hash: Hasher): (r: Result<string>)
    ensures r.Ok? <==> AlgorithmOf(algorithm).Ok? && IsFile(root, p)
    ensures r.Ok? ==> r.value == hash(AlgorithmOf(algorithm).value, p)
    ensures AlgorithmOf(algorithm).Err? ==> r == Err(AlgorithmOf(algorithm).error)
    ensures AlgorithmOf(algorithm).Ok? && Lookup(root, p) == None ==> r == Err(FileNotFoundError(PathText(p)))
    ensures AlgorithmOf(algorithm).Ok? && Lookup(root, p).Some? && Lookup(root, p).value.Dir? ==>
      r == Err(IsADirectoryError(PathText(p)))
  {
    var a :- AlgorithmOf(algorithm);
    match Lookup(root, p)
    case None => Err(FileNotFoundError(PathText(p)))
    case Some(Dir(_)) => Err(IsADirectoryError(PathText(p)))
    case Some(File(_)) => Ok(hash(a, p))
  }

  /** A hexadecimal digest is already in lower case: `lower()` keeps it. */
  lemma LowerKeepsHex(d: string)
    requires IsHex(d)
    ensures Lower(d) == d
  {
    assert forall k :: 0 <= k < |d| ==> LowerChar(d[k]) == d[k];
  }

  /** It holds no dot, so it can stand as the dot-free stem of a name. */
  lemma HexHasNoDot(d: string)
    requires IsHex(d)
    ensures '.' !in d
  {
  }
}
