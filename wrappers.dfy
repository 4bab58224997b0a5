/** Option and Result, in the usual shape. */
module Wrappers {

  datatype Option<+T> = None | Some(value: T)

  datatype Result<+T, +E> = Ok(value: T) | Err(error: E)
}

/** The ways a run of either pipeline aborts. Each names the Python exception it stands for. */
module Failures {

  datatype Failure =
    | ZeroStep               // ZeroDivisionError: a step of 0 minutes in `//` or `np.arange`
    | MissingHourlyRecords   // IndexError: the forecast has fewer than 24 hourly records
    | GridSizeMismatch       // ValueError: the slot grid does not have the 288 rows of the frame
    | DuplicateHourlyTime    // modelling choice, not derived from pandas: two hourly records share a time
    | SeriesLongerThanLog    // ValueError: the series has more entries than the log has rows
    | TimeColumnExists       // ValueError: the weather save inserts `time` into a log that has one
    | TimeColumnMissing      // KeyError: the solar save indexes by a `time` column the log lacks
    | NoWeatherData          // TypeError: the weather save joins with a data set that is still None
}
