/**
 * The application around the analysis object: the start-up load and
 * train, and the refresh route, which saves a fetched daily series to the
 * price file, reloads the table from that file and retrains. The network
 * fetch, reading the file back and the regression fit are parameters.
 */
module Refresh {
  import opened Wrappers
  import opened Series
  import opened Analysis
  import opened Export

  /** The refresh route's reply: a message, or an error with its HTTP status. */
  datatype Response = Updated(message: string) | Failed(error: string, status: int)

  const UpdatedMessage: string := "Data updated successfully!"
  const FetchFailedMessage: string := "Failed to fetch data from Alpha Vantage"
  const FetchFailedStatus: int := 500

  /** A fetch result the route goes on with: present and truthy. */
  predicate Usable(fetched: Option<Json>)
  {
    fetched.Some? && Truthy(fetched.value)
  }

  /** The price file after a save: rewritten, or as it was when the save left it alone. */
  function FileAfterSave(file: CsvFile, data: Json): (r: CsvFile)
    ensures CsvWrite(data).None? ==> r == file
    ensures CsvWrite(data).Some? ==> |r| >= 1 && r[0] == Header
  {
    match CsvWrite(data)
    case None => file
    case Some(written) => written
  }

  /**
   * The /fetch-data route. With no usable fetch result the file, the
   * table and the model stay as they were and the reply is the 500 error.
   * Otherwise it saves the series, reloads the table from the saved file
   * (loaded is the table that load leaves), then retrains on it, and
   * replies that the data was updated, whatever the save and load did.
   * Either way a served table (sorted by date, its derived columns
   * computed from its closes) stays served.
   */
  method FetchData(analysis: StockAnalysis, file: CsvFile, fetched: Option<Json>,
                   readCsv: CsvFile -> Option<seq<Record>>, parse: Parsers, fit: Fitter)
    returns (saved: CsvFile, response: Response, ghost loaded: Option<seq<Bar>>)
    modifies analysis
    ensures !Usable(fetched) ==>
      && saved == file
      && response == Failed(FetchFailedMessage, FetchFailedStatus)
      && analysis.df == old(analysis.df)
      && analysis.model == old(analysis.model)
    ensures Usable(fetched) ==>
      && saved == FileAfterSave(file, fetched.value)
      && response == Updated(UpdatedMessage)
      && Loaded(old(analysis.df), readCsv(saved), parse, loaded)
      && analysis.df == TrainedTable(loaded)
      && analysis.model == TrainedModel(loaded, old(analysis.model), fit)
    ensures Served(old(analysis.df)) ==> Served(analysis.df)
  {
    if !Usable(fetched) {
      return file, Failed(FetchFailedMessage, FetchFailedStatus), analysis.df;
    }
    var written := SaveDailyToCsv(fetched.value);
    saved := if written.Some? then written.value else file;
    analysis.LoadAndCleanData(readCsv(saved), parse);
    loaded := analysis.df;
    analysis.TrainModel(fit);
    response := Updated(UpdatedMessage);
    if Served(old(analysis.df)) {
      LoadKeepsServed(old(analysis.df), readCsv(saved), parse, loaded);
      TrainingKeepsServed(loaded);
    }
  }

  /**
   * Start-up: a new analysis object loads the price file, then trains
   * only when the load left a table with at least one row; the table it
   * leaves is served.
   */
  method Startup(table: Option<seq<Record>>, parse: Parsers, fit: Fitter)
    returns (analysis: StockAnalysis, ghost loaded: Option<seq<Bar>>)
    ensures fresh(analysis)
    ensures Loaded(None, table, parse, loaded)
    ensures analysis.df == TrainedTable(loaded)
    ensures analysis.model == TrainedModel(loaded, None, fit)
    ensures Served(analysis.df)
  {
    analysis := new StockAnalysis();
    analysis.LoadAndCleanData(table, parse);
    loaded := analysis.df;
    LoadKeepsServed(None, table, parse, loaded);
    if analysis.df.Some? && |analysis.df.value| > 0 {
      analysis.TrainModel(fit);
      TrainingKeepsServed(loaded);
    }
  }
}
