# Soil-temperature monitor: connector and data assembly

This project models the data side of a soil-temperature monitor for building
footprints. Each monitoring station has a table in a MySQL database. In that
table, column `1000 + d`, `2000 + d`, `2300 + d` and `2600 + d` hold the
readings of the four sensors at depth `d`, in tenths. Every row carries a
timestamp, and `-100` marks a missing reading.

The model covers two parts:

- **The connector `MonitorSQLConnector`** (module `SqlConnector`). It covers:
  - discovering the depths monitored at a station from its column names;
  - reading the four sensors at one exact time, with missing readings turned into `None`;
  - averaging each sensor over the half-open window `[start, start + interval)`.
  The averaging stacks a seed row of sentinels on the fetched rows. It returns all `None` when the matrix holds only sentinels. Otherwise it masks sentinels as NaN in place and takes NaN-ignoring column means.
- **The application's assembly** (module `App`). It covers:
  - resolving a structure to its size, its station numbers and the concatenated sensor coordinates;
  - gathering every station's day-averaged tuple in station order;
  - the ascending list of depths, in units, offered for a structure.

The database is not reached through a connection. It is a value: a map from
station number to a `Table`, holding the table's column names and its records
in storage order. A station with no table has no columns. Its depth set is
therefore empty, and every read fails with `ValueError`, as the real query on
the column catalogue returns no rows. A query naming a column the table lacks
fails with `QuerySyntaxError`, the exception the connector wraps database
errors in. A single-row read that finds no row ends in `TypeError`, because
the code maps over the `None` the cursor returns. NaN is the `NaN` case of
the matrix cell datatype `Cell`.

Column names are parsed with ASCII digits only (module `Decimal`).

- `get_depths` accepts a name such as `01005`: it parses that name as 1005.
- The readings query, however, spells the column id without leading zeros.
- So such a depth is offered, but reading it fails with `QuerySyntaxError`.

`MonitoredDepthChannels` states when the first queried name is one of the table's own names.

`get_structure_info` concatenates each station's list of `[x, y]` pairs
(main.py:26-29). Stations with four pairs each give one point per
sensor channel. They do not give one coordinate repeated four times.
`PointsMatchValues` proves the resulting alignment. `None` values are
not filtered out of the gathered values, and neither is anything else.

## Model

| member | source | states |
|---|---|---|
| Decimal.ParseShow | sql/sql_connector.py:65 | parsing the decimal spelling of a column id gives back the id |
| Decimal.ShowParse | sql/sql_connector.py:65 | a digit-only name without leading zeros is exactly the spelling of the number it parses to |
| SqlConnector.MonitorSqlConnector.constructor | sql/sql_connector.py:28-29 | the sensor base columns are 1000, 2000, 2300, 2600 in that order and the store is the one given |
| SqlConnector.TableOf | sql/sql_connector.py:58-64 | a station unknown to the database has no columns and no rows; tables of a well-formed store are well formed |
| SqlConnector.DepthColumns | sql/sql_connector.py:65-67 | a column id is kept exactly when some digit-only name parses to it and it lies in [1000, 2000) |
| SqlConnector.Depths | sql/sql_connector.py:65-72 | d is a monitored depth exactly when some digit-only column name parses to 1000 + d in [1000, 2000); every depth lies in [0, 1000) |
| SqlConnector.MonitorSqlConnector.GetDepths | sql/sql_connector.py:43-74 | the set filled by the loop is exactly the monitored depths of the station's columns |
| SqlConnector.MonitoredDepthChannels | sql/sql_connector.py:93 | for a monitored depth d the queried channels are 1000+d, 2000+d, 2300+d, 2600+d in sensor order; d lies in [0, 1000); the first channel is a column that made d monitored, and its query name is one of the table's names when names carry no leading zeros |
| SqlConnector.NoneForSentinel | sql/sql_connector.py:104 | same length; an entry is None exactly when the stored value is -100, and otherwise it holds the stored value |
| SqlConnector.SentinelRoundTrip | sql/sql_connector.py:104 | masking loses nothing: re-encoding None as -100 recovers the stored tuple |
| SqlConnector.NoneRoundTrip | sql/sql_connector.py:104 | readings that never hold -100 survive encoding and masking unchanged |
| SqlConnector.FirstIndexAt | sql/sql_connector.py:97-103 | the single-row read returns the first stored record at exactly the requested time, if one exists |
| SqlConnector.MonitorSqlConnector.GetTemperature | sql/sql_connector.py:76-108 | ValueError for an unmonitored depth before anything is read; QuerySyntaxError for a missing channel column; TypeError when no row has that time; otherwise the four channel values of the first such row with -100 as None |
| SqlConnector.Window | sql/sql_connector.py:135-141 | a record is fetched exactly when start <= time < stop, in storage order |
| SqlConnector.Fetch | sql/sql_connector.py:135-142 | one row per in-window record, each with one value per queried column |
| SqlConnector.Mean | sql/sql_connector.py:152 | the mean is absent exactly when there is no value to average |
| SqlConnector.ChannelsOfRows | sql/sql_connector.py:129 | the seed row of sentinels adds no reading to any channel of the matrix |
| SqlConnector.MaskSentinels | sql/sql_connector.py:151 | in place, every -100 cell becomes NaN and every other cell is unchanged |
| SqlConnector.ColumnNanMean | sql/sql_connector.py:152 | the NaN-ignoring column mean is the mean of the column's non-sentinel values, NaN when there is none |
| SqlConnector.NanMean | sql/sql_connector.py:152-153 | one NaN-ignoring mean per column, each equal to the mean of that column's real readings |
| SqlConnector.MonitorSqlConnector.GetAverageTemperature | sql/sql_connector.py:110-155 | the seed-row, all-sentinel, masking and mean steps compute exactly the specification AverageTemperature: ValueError, QuerySyntaxError, or per sensor the mean of its non-sentinel in-window readings, None when it has none |
| SqlConnector.MeanWithinReadings | sql/sql_connector.py:151-152 | an average lies between bounds of the real readings; sentinels do not drag it down |
| SqlConnector.SentinelExcludedFromMean | sql/sql_connector.py:151-152 | sentinels count neither in the sum nor in the count: 20, missing, 22 averages to 21 |
| SqlConnector.AllMissingIsAbsent | sql/sql_connector.py:148-153 | a channel whose in-window readings are all -100 averages to None |
| SqlConnector.EmptyWindowIsAbsent | sql/sql_connector.py:148-149 | with no record in the window every one of the four averages is None |
| SqlConnector.OutsideRecordIgnored | sql/sql_connector.py:138-139 | a record outside [start, start + interval), including one at the window's end, changes no average |
| SqlConnector.StartRecordCounted | sql/sql_connector.py:138 | a record at the window's start with a real reading gives its channel an average |
| App.GetStructureInfo | main.py:18-33 | KeyError for an unknown structure; otherwise its size, the station numbers in station order and the stations' coordinate lists concatenated in station order |
| App.CoordinatesLayout | main.py:26-29 | with four coordinates per station there are 4n points and points 4i..4i+3 are station i's coordinates |
| App.ValuesLayout | main.py:40-42 | gathering succeeds exactly when every station's average does; then there are 4n values and values 4i..4i+3 are station i's one-day averaged tuple |
| App.GetValues | main.py:36-44 | the loop with a 86400-second interval computes exactly the gathered values, in station order |
| App.PointsMatchValues | main.py:63-64 | points and values have the same length and position 4i+k holds sensor k of station i on both sides |
| App.Sorted | main.py:53 | the depth set in strictly ascending order, with the same elements |
| App.DepthChoices | main.py:53 | as many entries as depths, strictly ascending, every depth divided by 10 appears and every entry is a depth divided by 10 |
| App.UpdateDepths | main.py:47-53 | KeyError for an unknown structure, IndexError for one without stations, otherwise the choices built from the first station's depths |

## Left out

- The MySQL connection, cursors, SQL text, `DBConnectionError` and errors other than a missing column: the database is a value passed to the connector's constructor.
- SQL `NULL` cells and numpy dtypes: every stored cell is a number.
- Floating point: readings and means are exact reals. IEEE rounding of the sum and the division is not modelled, and NaN is a separate cell case rather than a float. The float division `x / 10` of update_depths is likewise modelled as exact division (`Tenths`).
- The SQL row order: rows come back in storage order. A database free to return another order would change which row the single-row read returns.
- `str.isdigit` accepts non-ASCII digits; the model accepts ASCII `0`-`9` only.
- utils/interpolate.py and utils/get_grid.py are not part of this model: radial-basis interpolation and grid construction are floating-point library calls.
- `plot` and `main` in main.py: the UI, rendering, loading of the structure data and the date conversion by `time.mktime`, which depends on the local time zone.
- The conversion `int(float(depth) * 10)` of the chosen depth back to tenths depends on IEEE rounding.
- UpdateDepths: the assignment of the list to the combo box is left out; the method returns the list instead.
- App.GetStructureInfo: the conversion of the points to a numpy array is not modelled; the points stay a sequence of pairs.
