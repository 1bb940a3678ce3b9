/**
 * The pure core of `_process_sql_file_impl`: parse the script, then generate
 * the DDL file from the DDL statements and the DML file from the DML
 * statements; the summary reports the size of each list.
 */
module Pipeline {
  import Segmenter
  import Classifier
  import Emitter

  /** Lines 539-544: parse once, then one generated file per list. */
  method ProcessSqlContent(sourceName: string, sqlContent: string, nomenclature: string, timestamp: string)
    returns (ddl: seq<string>, dml: seq<string>, ddlFile: Emitter.GeneratedFile, dmlFile: Emitter.GeneratedFile)
    ensures ddl == Classifier.Select(Segmenter.Statements(sqlContent), Classifier.Ddl)
    ensures dml == Classifier.Select(Segmenter.Statements(sqlContent), Classifier.Dml)
    ensures ddlFile.name == Emitter.OutputName(Emitter.DdlFile, sourceName)
    ensures dmlFile.name == Emitter.OutputName(Emitter.DmlFile, sourceName)
    ensures ddlFile.content == Emitter.FileContent(Emitter.DdlFile, sourceName, ddl, nomenclature, timestamp)
    ensures dmlFile.content == Emitter.FileContent(Emitter.DmlFile, sourceName, dml, nomenclature, timestamp)
  {
    ddl, dml := Classifier.ParseSqlStatements(sqlContent);
    ddlFile := Emitter.GenerateDdlFile(sourceName, ddl, nomenclature, timestamp);
    dmlFile := Emitter.GenerateDmlFile(sourceName, dml, nomenclature, timestamp);
  }

  /**
   * The two counts of the summary (lines 550-551) never exceed the number of
   * segmented statements, and each matches the number of separator entries in
   * the list of blocks (`processed_statements`) of its file.
   */
  lemma SummaryCounts(sqlContent: string, nomenclature: string, timestamp: string)
    ensures var stmts := Segmenter.Statements(sqlContent);
      var ddl := Classifier.Select(stmts, Classifier.Ddl);
      var dml := Classifier.Select(stmts, Classifier.Dml);
      && |ddl| + |dml| <= |stmts|
      && Emitter.CountOf(Emitter.Interleave(Emitter.AnnotateAll(ddl, nomenclature, timestamp)), Emitter.StatementSeparator) == |ddl|
      && Emitter.CountOf(Emitter.Interleave(Emitter.AnnotateAll(dml, nomenclature, timestamp)), Emitter.StatementSeparator) == |dml|
  {
    var stmts := Segmenter.Statements(sqlContent);
    Classifier.SelectPartition(stmts);
    Emitter.SeparatorCount(Classifier.Select(stmts, Classifier.Ddl), nomenclature, timestamp);
    Emitter.SeparatorCount(Classifier.Select(stmts, Classifier.Dml), nomenclature, timestamp);
  }
}
