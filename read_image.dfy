/** Loading a program image into memory (read-image.c). An image file is a
    sequence of big-endian 16-bit words: the first is the origin, the address
    where the program goes, and the rest are the program. The file is
    modelled as the words exactly as a little-endian host reads them, so
    each one still has to be byte-swapped. */
module ReadImage {

  import opened BitUtilities
  import opened Options
  import opened Core

  /** The load address: the first word of the file, byte-swapped. */
  function ImageOrigin(file: seq<Word>): (origin: nat)
    requires |file| >= 1
    ensures origin <= 0xFFFF
  {
    Swap16(file[0]) as int
  }

  /** How many program words are placed: every word after the origin, but
      at most UINT16_MAX - origin of them. */
  function ImageCount(file: seq<Word>): (count: nat)
    requires |file| >= 1
    ensures count <= |file| - 1
    ensures ImageOrigin(file) + count <= 0xFFFF
    ensures count == |file| - 1 || ImageOrigin(file) + count == 0xFFFF
  {
    var maxRead := 0xFFFF - ImageOrigin(file);
    if |file| - 1 < maxRead then |file| - 1 else maxRead
  }

  /** Memory after loading: the i-th program word, byte-swapped, at
      origin + i for each placed word, and every other cell as before. */
  function LoadedImage(memory: seq<Word>, file: seq<Word>): (loaded: seq<Word>)
    requires |file| >= 1 && |memory| == MEMORY_SIZE
    ensures |loaded| == MEMORY_SIZE
  {
    var origin := ImageOrigin(file);
    var count := ImageCount(file);
    seq(MEMORY_SIZE, a requires 0 <= a < MEMORY_SIZE =>
      if origin <= a < origin + count then Swap16(file[1 + a - origin]) else memory[a])
  }

  /** Each placed word lands at origin + i in host order, no other cell
      changes, and the last cell (0xFFFF) is never written. */
  lemma LoadedPlacement(memory: seq<Word>, file: seq<Word>)
    requires |file| >= 1 && |memory| == MEMORY_SIZE
    ensures forall a :: ImageOrigin(file) <= a < ImageOrigin(file) + ImageCount(file) ==>
      LoadedImage(memory, file)[a] == Swap16(file[1 + a - ImageOrigin(file)])
    ensures forall a :: 0 <= a < MEMORY_SIZE && !(ImageOrigin(file) <= a < ImageOrigin(file) + ImageCount(file)) ==>
      LoadedImage(memory, file)[a] == memory[a]
    ensures LoadedImage(memory, file)[0xFFFF] == memory[0xFFFF]
  {
    var origin, count := ImageOrigin(file), ImageCount(file);
    var loaded := LoadedImage(memory, file);
    assert forall a :: 0 <= a < MEMORY_SIZE ==>
      loaded[a] == if origin <= a < origin + count then Swap16(file[1 + a - origin]) else memory[a];
  }

  /** An image file for a program placed at origin: the origin followed by
      the program, every word in big-endian order. */
  function EncodeImage(origin: Word, program: seq<Word>): (file: seq<Word>)
    ensures |file| == |program| + 1
    ensures ImageOrigin(file) == origin as int
  {
    Swap16Involution(origin);
    [Swap16(origin)] + seq(|program|, i requires 0 <= i < |program| => Swap16(program[i]))
  }

  /** Loading the image of a program that fits below 0xFFFF puts exactly
      that program at its origin. */
  lemma LoadEncodedImage(memory: seq<Word>, origin: Word, program: seq<Word>)
    requires |memory| == MEMORY_SIZE
    requires origin as int + |program| <= 0xFFFF
    ensures ImageCount(EncodeImage(origin, program)) == |program|
    ensures forall i :: 0 <= i < |program| ==>
      LoadedImage(memory, EncodeImage(origin, program))[origin as int + i] == program[i]
  {
    var file := EncodeImage(origin, program);
    forall i | 0 <= i < |program|
      ensures LoadedImage(memory, file)[origin as int + i] == program[i]
    {
      assert file[1 + i] == Swap16(program[i]);
      Swap16Involution(program[i]);
    }
  }

  /** read_image_file: the fread of up to UINT16_MAX - origin words to
      memory + origin, then the loop that byte-swaps them in place. */
  method ReadImageFile(file: seq<Word>, memory: array<Word>)
    requires |file| >= 1 && memory.Length == MEMORY_SIZE
    modifies memory
    ensures memory[..] == LoadedImage(old(memory[..]), file)
  {
    ghost var before := memory[..];
    var origin := ImageOrigin(file);
    var maxRead := 0xFFFF - origin;
    var read := if |file| - 1 < maxRead then |file| - 1 else maxRead;
    assert read == ImageCount(file);
    forall i | 0 <= i < read {
      memory[origin + i] := file[1 + i];
    }
    SwapInPlace(memory, origin, read);
    LoadedPlacement(before, file);
    assert memory[..] == LoadedImage(before, file);
  }

  /** The byte-swap loop of read_image_file: each of the count words from
      start on is swapped in place, and nothing else changes. */
  method SwapInPlace(memory: array<Word>, start: nat, count: nat)
    requires start + count <= memory.Length
    modifies memory
    ensures forall a :: 0 <= a < memory.Length ==>
      memory[a] == if start <= a < start + count then Swap16(old(memory[a])) else old(memory[a])
  {
    var program := start;
    var read := count;
    while read > 0
      invariant start <= program <= start + count && read == start + count - program
      invariant forall a :: 0 <= a < memory.Length ==>
        memory[a] == if start <= a < program then Swap16(old(memory[a])) else old(memory[a])
    {
      memory[program] := Swap16(memory[program]);
      program := program + 1;
      read := read - 1;
    }
  }

  /** read_image: an image that cannot be opened (None) gives 0 and leaves
      memory alone; an opened one is loaded and gives 1. */
  method ReadImage(image: Option<seq<Word>>, memory: array<Word>) returns (status: int)
    requires memory.Length == MEMORY_SIZE
    requires image.Some? ==> |image.value| >= 1
    modifies memory
    ensures status == 0 <==> image.None?
    ensures status == 1 <==> image.Some?
    ensures image.None? ==> memory[..] == old(memory[..])
    ensures image.Some? ==> memory[..] == LoadedImage(old(memory[..]), image.value)
  {
    if image.None? {
      return 0;
    }
    ReadImageFile(image.value, memory);
    return 1;
  }
}
