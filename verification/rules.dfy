/** Reading a rules file (`PatternValidator._load_rules`, src/pattern_enforcer/validator.py):
    the fenced YAML blocks are cut out of the text line by line, each is parsed, and the
    ones that parse to a mapping are merged into one rule dict. The YAML parser is not
    part of this model: it is the parameter `load`, which gives `None` where the parser
    raises its error and otherwise the document it reads. */
module Rules {
  import opened Wrappers
  import opened Text
  import opened Dicts
  import opened PyValues

  const OpenFence := "```yaml"
  const CloseFence := "```"

  /** The scanner's variables: inside a block or not, the lines of the block being read,
      and the blocks finished so far. */
  datatype Scan = Scan(inYaml: bool, current: seq<string>, blocks: seq<string>)

  const Start := Scan(false, [], [])

  /** One line of the scan: an opening fence starts (or continues) a block; a closing
      fence inside a block ends it, keeping it only when it has lines; any other line is
      kept inside a block and ignored outside one. */
  function ScanLine(st: Scan, line: string): Scan
  {
    if Strip(line) == OpenFence then st.(inYaml := true)
    else if Strip(line) == CloseFence && st.inYaml then
      if st.current != [] then Scan(false, [], st.blocks + [Join(st.current, "\n")])
      else st.(inYaml := false)
    else if st.inYaml then st.(current := st.current + [line])
    else st
  }

  function ScanLines(st: Scan, lines: seq<string>): Scan
    decreases |lines|
  {
    if lines == [] then st else ScanLines(ScanLine(st, lines[0]), lines[1..])
  }

  /** The YAML blocks of a rules file's text. */
  function YamlBlocks(content: string): seq<string>
  {
    ScanLines(Start, Split(content, '\n')).blocks
  }

  /** The block extraction of `_load_rules`. */
  method ExtractYamlBlocks(content: string) returns (yamlBlocks: seq<string>)
    ensures yamlBlocks == YamlBlocks(content)
  {
    var lines := Split(content, '\n');
    var inYaml := false;
    var currentBlock: seq<string> := [];
    yamlBlocks := [];
    for i := 0 to |lines|
      invariant ScanLines(Scan(inYaml, currentBlock, yamlBlocks), lines[i..]) == ScanLines(Start, lines)
    {
      ghost var before := Scan(inYaml, currentBlock, yamlBlocks);
      ScanLinesStep(before, lines, i);
      inYaml, currentBlock, yamlBlocks := ScanOne(inYaml, currentBlock, yamlBlocks, lines[i]);
    }
    assert lines[|lines|..] == [];
  }

  /** The body of the line loop of `_load_rules`. */
  method ScanOne(inYaml: bool, currentBlock: seq<string>, yamlBlocks: seq<string>, line: string)
    returns (inYaml': bool, currentBlock': seq<string>, yamlBlocks': seq<string>)
    ensures Scan(inYaml', currentBlock', yamlBlocks') == ScanLine(Scan(inYaml, currentBlock, yamlBlocks), line)
  {
    inYaml', currentBlock', yamlBlocks' := inYaml, currentBlock, yamlBlocks;
    if Strip(line) == OpenFence {
      inYaml' := true;
    } else if Strip(line) == CloseFence && inYaml {
      inYaml' := false;
      if currentBlock != [] {
        yamlBlocks' := yamlBlocks + [Join(currentBlock, "\n")];
        currentBlock' := [];
      }
    } else if inYaml {
      currentBlock' := currentBlock + [line];
    }
  }

  lemma ScanLinesStep(st: Scan, lines: seq<string>, i: nat)
    requires i < |lines|
    ensures ScanLines(st, lines[i..]) == ScanLines(ScanLine(st, lines[i]), lines[i + 1..])
  {
    assert lines[i..][0] == lines[i] && lines[i..][1..] == lines[i + 1..];
  }

  /** A rules document as its author writes it: lines of prose, and fenced blocks. */
  datatype Chunk = Prose(line: string) | Fenced(body: seq<string>)

  /** A block line that the scanner keeps as it is. */
  predicate BodyLine(line: string)
  {
    Strip(line) != OpenFence && Strip(line) != CloseFence
  }

  /** Every line of a block body is kept as it is. */
  predicate BodyLines(body: seq<string>)
  {
    body == [] || (BodyLine(body[0]) && BodyLines(body[1..]))
  }

  /** Prose lines may be anything but an opening fence (a lone closing fence outside a
      block is ignored); block lines may be neither fence. */
  predicate Plain(c: Chunk)
  {
    match c
    case Prose(line) => Strip(line) != OpenFence
    case Fenced(body) => BodyLines(body)
  }

  predicate AllPlain(chunks: seq<Chunk>)
  {
    chunks == [] || (Plain(chunks[0]) && AllPlain(chunks[1..]))
  }

  function Render(chunks: seq<Chunk>): (r: seq<string>)
    ensures chunks != [] ==> r != []
  {
    if chunks == [] then []
    else
      match chunks[0]
      case Prose(line) => [line] + Render(chunks[1..])
      case Fenced(body) => [OpenFence] + body + [CloseFence] + Render(chunks[1..])
  }

  /** The blocks an author meant: the text of each fenced block that has lines. */
  function Bodies(chunks: seq<Chunk>): seq<string>
  {
    if chunks == [] then [] else Block(chunks[0]) + Bodies(chunks[1..])
  }

  /** The block a chunk holds, if any. */
  function Block(c: Chunk): seq<string>
  {
    if c.Fenced? && c.body != [] then [Join(c.body, "\n")] else []
  }

  lemma {:induction false} ScanLinesAppend(st: Scan, xs: seq<string>, ys: seq<string>)
    ensures ScanLines(st, xs + ys) == ScanLines(ScanLines(st, xs), ys)
    decreases |xs|
  {
    if xs == [] {
      assert xs + ys == ys;
    } else {
      assert (xs + ys)[0] == xs[0] && (xs + ys)[1..] == xs[1..] + ys;
      ScanLinesAppend(ScanLine(st, xs[0]), xs[1..], ys);
    }
  }

  /** Inside a block, lines that are not fences are collected as they are. */
  lemma {:induction false} ScanBody(current: seq<string>, blocks: seq<string>, body: seq<string>)
    requires BodyLines(body)
    ensures ScanLines(Scan(true, current, blocks), body) == Scan(true, current + body, blocks)
    decreases |body|
  {
    if body != [] {
      var st := Scan(true, current, blocks);
      BodyLineKept(st, body[0]);
      ScanBody(current + [body[0]], blocks, body[1..]);
      MoveFirst(current, body);
    }
  }

  lemma MoveFirst(a: seq<string>, b: seq<string>)
    requires b != []
    ensures a + [b[0]] + b[1..] == a + b
  {
    assert [b[0]] + b[1..] == b;
  }

  lemma BodyLineKept(st: Scan, line: string)
    requires st.inYaml && BodyLine(line)
    ensures ScanLine(st, line) == st.(current := st.current + [line])
  {
  }

  /** Outside a block, one chunk adds its block, if it has lines, and leaves the scanner
      outside again. */
  lemma ScanChunk(blocks: seq<string>, c: Chunk)
    requires Plain(c)
    ensures ScanLines(Scan(false, [], blocks), Render([c])) == Scan(false, [], blocks + Block(c))
  {
    match c
    case Prose(line) =>
      assert Render([c]) == [line];
    case Fenced(body) =>
      assert Render([c]) == [OpenFence] + body + [CloseFence];
      ScanFenced(blocks, body);
  }

  lemma ScanFenced(blocks: seq<string>, body: seq<string>)
    requires BodyLines(body)
    ensures ScanLines(Scan(false, [], blocks), [OpenFence] + body + [CloseFence]) == Scan(false, [], blocks + Block(Fenced(body)))
  {
    var st := Scan(false, [], blocks);
    var entered := Scan(true, [], blocks);
    var inside := Scan(true, body, blocks);
    OpenOutside(blocks);
    ScanLinesAppend(st, [OpenFence], body + [CloseFence]);
    Assoc([OpenFence], body, [CloseFence]);
    ScanLinesAppend(entered, body, [CloseFence]);
    ScanBody([], blocks, body);
    EmptyPrefix(body);
    CloseInside(body, blocks);
  }

  /** An opening fence starts a block. */
  lemma OpenOutside(blocks: seq<string>)
    ensures ScanLines(Scan(false, [], blocks), [OpenFence]) == Scan(true, [], blocks)
  {
    FenceFacts();
    assert ScanLine(Scan(false, [], blocks), OpenFence) == Scan(true, [], blocks);
  }

  lemma FenceFacts()
    ensures Strip(OpenFence) == OpenFence && Strip(CloseFence) == CloseFence && OpenFence != CloseFence
  {
    StripStripped(OpenFence);
    StripStripped(CloseFence);
  }

  /** A closing fence ends the block being read. */
  lemma CloseInside(body: seq<string>, blocks: seq<string>)
    ensures ScanLines(Scan(true, body, blocks), [CloseFence]) == Scan(false, [], blocks + Block(Fenced(body)))
  {
    FenceFacts();
    assert ScanLine(Scan(true, body, blocks), CloseFence) == Scan(false, [], blocks + Block(Fenced(body)));
  }

  /** Scanning a rendered document finds exactly the blocks its author wrote. */
  lemma {:induction false} ScanRender(blocks: seq<string>, chunks: seq<Chunk>)
    requires AllPlain(chunks)
    ensures ScanLines(Scan(false, [], blocks), Render(chunks)) == Scan(false, [], blocks + Bodies(chunks))
    decreases |chunks|
  {
    if chunks != [] {
      var c := chunks[0];
      var rest := chunks[1..];
      RenderCons(chunks);
      ScanLinesAppend(Scan(false, [], blocks), Render([c]), Render(rest));
      ScanChunk(blocks, c);
      ScanRender(blocks + Block(c), rest);
      Assoc(blocks, Block(c), Bodies(rest));
    }
  }

  lemma RenderCons(chunks: seq<Chunk>)
    requires chunks != []
    ensures Render(chunks) == Render([chunks[0]]) + Render(chunks[1..])
  {
    assert [chunks[0]][1..] == [];
  }

  lemma EmptyPrefix(s: seq<string>)
    ensures [] + s == s
  {
  }

  lemma Assoc(a: seq<string>, b: seq<string>, c: seq<string>)
    ensures a + b + c == a + (b + c)
  {
  }

  /** The text of a rules document whose lines are single lines yields the blocks its
      author wrote: fence lines are dropped, empty blocks give nothing, and prose between
      blocks (a stray closing fence included) is ignored. */
  lemma DocumentBlocks(chunks: seq<Chunk>)
    requires AllPlain(chunks)
    requires forall i :: 0 <= i < |Render(chunks)| ==> '\n' !in Render(chunks)[i]
    ensures YamlBlocks(Join(Render(chunks), "\n")) == Bodies(chunks)
  {
    if chunks == [] {
      assert Split("", '\n') == [""];
      StripStripped("");
    } else {
      JoinSplit(Render(chunks), '\n');
      ScanRender([], chunks);
    }
  }

  /** A block left open at the end of the file is dropped. */
  lemma Unterminated(chunks: seq<Chunk>, body: seq<string>)
    requires AllPlain(chunks)
    requires BodyLines(body)
    ensures ScanLines(Start, Render(chunks) + [OpenFence] + body).blocks == Bodies(chunks)
  {
    var prose := Render(chunks);
    var found := Scan(false, [], Bodies(chunks));
    ScanRender([], chunks);
    EmptyPrefix(Bodies(chunks));
    assert ScanLines(Start, prose) == found;
    Assoc(prose, [OpenFence], body);
    ScanLinesAppend(Start, prose, [OpenFence] + body);
    ScanLinesAppend(found, [OpenFence], body);
    OpenOutside(Bodies(chunks));
    ScanBody([], Bodies(chunks), body);
  }

  /** Whether a parse result is a mapping that defines `key`. */
  predicate Defines(doc: Option<Value>, key: string)
  {
    doc.Some? && doc.value.VDict? && key in Keys(doc.value.entries)
  }

  /** A parser result whose mappings have one entry per key, as a parsed mapping does. */
  predicate WellParsed(doc: Option<Value>)
  {
    doc.Some? && doc.value.VDict? ==> UniqueKeys(doc.value.entries)
  }

  /** The rules gathered from the blocks, in order: a block that parses to a mapping
      updates the rules, any other block is skipped. */
  function Merged(rules: Dict<Value>, blocks: seq<string>, load: string -> Option<Value>): (r: Dict<Value>)
    ensures UniqueKeys(rules) ==> UniqueKeys(r)
    decreases |blocks|
  {
    if blocks == [] then rules
    else
      Merged(Absorbed(rules, load(blocks[0])), blocks[1..], load)
  }

  /** The rules after one parsed block: a mapping updates them, anything else is skipped. */
  function Absorbed(rules: Dict<Value>, doc: Option<Value>): (r: Dict<Value>)
    ensures UniqueKeys(rules) ==> UniqueKeys(r)
  {
    if doc.Some? && doc.value.VDict? then Update(rules, doc.value.entries) else rules
  }

  /** A key no block defines keeps its earlier value. */
  lemma {:induction false} MergedUndefined(rules: Dict<Value>, blocks: seq<string>, load: string -> Option<Value>, key: string)
    requires forall i :: 0 <= i < |blocks| ==> WellParsed(load(blocks[i])) && !Defines(load(blocks[i]), key)
    ensures Get(Merged(rules, blocks, load), key) == Get(rules, key)
    decreases |blocks|
  {
    if blocks != [] {
      var doc := load(blocks[0]);
      var rules' := Absorbed(rules, doc);
      if doc.Some? && doc.value.VDict? {
        UpdateGet(rules, doc.value.entries, key);
      }
      MergedUndefined(rules', blocks[1..], load, key);
    }
  }

  /** Later blocks override earlier ones: a key takes its value from the last block that
      defines it. */
  lemma {:induction false} MergedLast(rules: Dict<Value>, blocks: seq<string>, load: string -> Option<Value>, key: string, i: nat)
    requires forall j :: 0 <= j < |blocks| ==> WellParsed(load(blocks[j]))
    requires i < |blocks| && Defines(load(blocks[i]), key)
    requires forall j :: i < j < |blocks| ==> !Defines(load(blocks[j]), key)
    ensures Get(Merged(rules, blocks, load), key) == Get(load(blocks[i]).value.entries, key)
    decreases |blocks|
  {
    var rest := blocks[1..];
    RestParsed(blocks, load, key, i);
    if i == 0 {
      MergedFirst(rules, blocks, load, key);
    } else {
      var rules' := Absorbed(rules, load(blocks[0]));
      assert Merged(rules, blocks, load) == Merged(rules', rest, load);
      MergedLast(rules', rest, load, key, i - 1);
    }
  }

  /** The first block defines the key and no later block does. */
  lemma MergedFirst(rules: Dict<Value>, blocks: seq<string>, load: string -> Option<Value>, key: string)
    requires blocks != [] && Defines(load(blocks[0]), key) && WellParsed(load(blocks[0]))
    requires forall j :: 0 <= j < |blocks[1..]| ==> WellParsed(load(blocks[1..][j])) && !Defines(load(blocks[1..][j]), key)
    ensures Get(Merged(rules, blocks, load), key) == Get(load(blocks[0]).value.entries, key)
  {
    var doc := load(blocks[0]);
    var rules' := Absorbed(rules, doc);
    UpdateGet(rules, doc.value.entries, key);
    MergedUndefined(rules', blocks[1..], load, key);
  }

  /** The conditions of `MergedLast` on the blocks after the first. */
  lemma RestParsed(blocks: seq<string>, load: string -> Option<Value>, key: string, i: nat)
    requires blocks != []
    requires forall j :: 0 <= j < |blocks| ==> WellParsed(load(blocks[j]))
    requires forall j :: i < j < |blocks| ==> !Defines(load(blocks[j]), key)
    ensures forall j :: 0 <= j < |blocks[1..]| ==> WellParsed(load(blocks[1..][j]))
    ensures forall j :: i - 1 < j < |blocks[1..]| ==> !Defines(load(blocks[1..][j]), key)
    ensures 0 < i < |blocks| ==> blocks[1..][i - 1] == blocks[i]
  {
    var rest := blocks[1..];
    forall j | 0 <= j < |rest|
      ensures rest[j] == blocks[j + 1]
    {
    }
  }

  /** The rule merging of `_load_rules`. */
  method MergeBlocks(yamlBlocks: seq<string>, load: string -> Option<Value>) returns (rules: Dict<Value>)
    ensures rules == Merged([], yamlBlocks, load)
  {
    rules := [];
    for i := 0 to |yamlBlocks|
      invariant Merged(rules, yamlBlocks[i..], load) == Merged([], yamlBlocks, load)
    {
      assert yamlBlocks[i..][0] == yamlBlocks[i] && yamlBlocks[i..][1..] == yamlBlocks[i + 1..];
      var data := load(yamlBlocks[i]);
      if data.Some? && data.value.VDict? {
        rules := Update(rules, data.value.entries);
      }
    }
  }

  /** `_load_rules` on the text of the rules file. */
  method LoadRules(content: string, load: string -> Option<Value>) returns (rules: Dict<Value>)
    ensures rules == Merged([], YamlBlocks(content), load)
    ensures UniqueKeys(rules)
  {
    var yamlBlocks := ExtractYamlBlocks(content);
    rules := MergeBlocks(yamlBlocks, load);
  }
}
