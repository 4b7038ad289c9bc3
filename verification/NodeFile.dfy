/** Saving a forest of nodes and opening the file again, with or without the block cache. */
module NodeFile {
  import opened NodeFormat
  import opened NodeRoundTrip
  import opened FileLoader

  /**
   The client that opens the saved file walks over objects that show the forest as it was handed over,
   exactly when every node of that is codable; it is the forest itself exactly when all properties
   are shorter than 65536 bytes.
   */
  method SaveThenOpen(f: Nodes, caching: bool) returns (ok: bool, reader: Loader, ghost shape: Shape)
    requires f.Node?
    ensures fresh(reader) && reader.Valid() && reader.file == FileOf(AllSized(f))
    ensures ok ==> shape.Root() == reader.root && shape.Linked() && shape.Apart()
    ensures AllCodable(AllSized(f)) <==>
              ok && Readable(reader.file, shape.Records()) && Decode(reader.file, shape.Records()) == AllSized(f)
    ensures AllSized(f) == f <==> AllShort(f)
  {
    hide ParseList, Emit, Decode, Readable, AllCodable, AllShort, Shape.Linked, Shape.Apart, Shape.Records;
    var writer := new Loader([]);
    writer.CreateFile();
    writer.WriteNodes(f);
    SizedIsSame(f);
    ghost var g := AllSized(f);
    RoundTrip(g);
    SavedHeader(g);
    reader := new Loader(writer.file);
    ok, shape := reader.OpenFile(caching, 0);
  }

  lemma SavedHeader(f: Nodes)
    requires f.Node?
    ensures |FileOf(f)| > 4 && FileOf(f)[..4] == [0, 0, 0, 0] && FileOf(f)[4] == NODE_START
  {
    assert Emit(f)[0] == NODE_START;
  }
}
