/**
 The table loregs: the place, size and kind of every named register, and that the places
 are disjoint. Default values are left out.
 */
module RegisterTable {
  /**
   A register: its page or -1 for all pages, byte address, lowest bit, whether it is
   signed, number of bits, and whether it is read-only.
   */
  datatype Reg = Reg(page: int, addr: int, offs: int, sign: bool, leng: int, rdon: bool)

  const LGW_PAGE_REG := 0
  const LGW_SOFT_RESET := 1
  const LGW_TX_TRIG_ALL := 325
  const LGW_TOTALREGS := 326
  const PART := 20

  const PART_0: seq<Reg> := [
    Reg(-1, 0, 0, false, 2, false), // PAGE_REG
    Reg(-1, 0, 7, false, 1, false), // SOFT_RESET
    Reg(-1, 1, 0, false, 8, true), // VERSION
    Reg(-1, 2, 0, false, 16, false), // RX_DATA_BUF_ADDR
    Reg(-1, 4, 0, false, 8, false), // RX_DATA_BUF_DATA
    Reg(-1, 5, 0, false, 8, false), // TX_DATA_BUF_ADDR
    Reg(-1, 6, 0, false, 8, false), // TX_DATA_BUF_DATA
    Reg(-1, 7, 0, false, 8, false), // CAPTURE_RAM_ADDR
    Reg(-1, 8, 0, false, 8, true), // CAPTURE_RAM_DATA
    Reg(-1, 9, 0, false, 8, false), // MCU_PROM_ADDR
    Reg(-1, 10, 0, false, 8, false), // MCU_PROM_DATA
    Reg(-1, 11, 0, false, 8, false), // RX_PACKET_DATA_FIFO_NUM_STORED
    Reg(-1, 12, 0, false, 16, true), // RX_PACKET_DATA_FIFO_ADDR_POINTER
    Reg(-1, 14, 0, false, 8, true), // RX_PACKET_DATA_FIFO_STATUS
    Reg(-1, 15, 0, false, 8, true), // RX_PACKET_DATA_FIFO_PAYLOAD_SIZE
    Reg(-1, 16, 0, false, 1, false), // MBWSSF_MODEM_ENABLE
    Reg(-1, 16, 1, false, 1, false), // CONCENTRATOR_MODEM_ENABLE
    Reg(-1, 16, 2, false, 1, false), // FSK_MODEM_ENABLE
    Reg(-1, 16, 3, false, 1, false), // GLOBAL_EN
    Reg(-1, 17, 0, false, 1, false) // CLK32M_EN
  ]

  const PART_1: seq<Reg> := [
    Reg(-1, 17, 1, false, 1, false), // CLKHS_EN
    Reg(-1, 18, 0, false, 1, false), // START_BIST0
    Reg(-1, 18, 1, false, 1, false), // START_BIST1
    Reg(-1, 18, 2, false, 1, false), // CLEAR_BIST0
    Reg(-1, 18, 3, false, 1, false), // CLEAR_BIST1
    Reg(-1, 19, 0, false, 1, true), // BIST0_FINISHED
    Reg(-1, 19, 1, false, 1, true), // BIST1_FINISHED
    Reg(-1, 20, 0, false, 1, true), // MCU_AGC_PROG_RAM_BIST_STATUS
    Reg(-1, 20, 1, false, 1, true), // MCU_ARB_PROG_RAM_BIST_STATUS
    Reg(-1, 20, 2, false, 1, true), // CAPTURE_RAM_BIST_STATUS
    Reg(-1, 20, 3, false, 1, true), // CHAN_FIR_RAM0_BIST_STATUS
    Reg(-1, 20, 4, false, 1, true), // CHAN_FIR_RAM1_BIST_STATUS
    Reg(-1, 21, 0, false, 1, true), // CORR0_RAM_BIST_STATUS
    Reg(-1, 21, 1, false, 1, true), // CORR1_RAM_BIST_STATUS
    Reg(-1, 21, 2, false, 1, true), // CORR2_RAM_BIST_STATUS
    Reg(-1, 21, 3, false, 1, true), // CORR3_RAM_BIST_STATUS
    Reg(-1, 21, 4, false, 1, true), // CORR4_RAM_BIST_STATUS
    Reg(-1, 21, 5, false, 1, true), // CORR5_RAM_BIST_STATUS
    Reg(-1, 21, 6, false, 1, true), // CORR6_RAM_BIST_STATUS
    Reg(-1, 21, 7, false, 1, true) // CORR7_RAM_BIST_STATUS
  ]

  const PART_2: seq<Reg> := [
    Reg(-1, 22, 0, false, 1, true), // MODEM0_RAM0_BIST_STATUS
    Reg(-1, 22, 1, false, 1, true), // MODEM1_RAM0_BIST_STATUS
    Reg(-1, 22, 2, false, 1, true), // MODEM2_RAM0_BIST_STATUS
    Reg(-1, 22, 3, false, 1, true), // MODEM3_RAM0_BIST_STATUS
    Reg(-1, 22, 4, false, 1, true), // MODEM4_RAM0_BIST_STATUS
    Reg(-1, 22, 5, false, 1, true), // MODEM5_RAM0_BIST_STATUS
    Reg(-1, 22, 6, false, 1, true), // MODEM6_RAM0_BIST_STATUS
    Reg(-1, 22, 7, false, 1, true), // MODEM7_RAM0_BIST_STATUS
    Reg(-1, 23, 0, false, 1, true), // MODEM0_RAM1_BIST_STATUS
    Reg(-1, 23, 1, false, 1, true), // MODEM1_RAM1_BIST_STATUS
    Reg(-1, 23, 2, false, 1, true), // MODEM2_RAM1_BIST_STATUS
    Reg(-1, 23, 3, false, 1, true), // MODEM3_RAM1_BIST_STATUS
    Reg(-1, 23, 4, false, 1, true), // MODEM4_RAM1_BIST_STATUS
    Reg(-1, 23, 5, false, 1, true), // MODEM5_RAM1_BIST_STATUS
    Reg(-1, 23, 6, false, 1, true), // MODEM6_RAM1_BIST_STATUS
    Reg(-1, 23, 7, false, 1, true), // MODEM7_RAM1_BIST_STATUS
    Reg(-1, 24, 0, false, 1, true), // MODEM0_RAM2_BIST_STATUS
    Reg(-1, 24, 1, false, 1, true), // MODEM1_RAM2_BIST_STATUS
    Reg(-1, 24, 2, false, 1, true), // MODEM2_RAM2_BIST_STATUS
    Reg(-1, 24, 3, false, 1, true) // MODEM3_RAM2_BIST_STATUS
  ]

  const PART_3: seq<Reg> := [
    Reg(-1, 24, 4, false, 1, true), // MODEM4_RAM2_BIST_STATUS
    Reg(-1, 24, 5, false, 1, true), // MODEM5_RAM2_BIST_STATUS
    Reg(-1, 24, 6, false, 1, true), // MODEM6_RAM2_BIST_STATUS
    Reg(-1, 24, 7, false, 1, true), // MODEM7_RAM2_BIST_STATUS
    Reg(-1, 25, 0, false, 1, true), // MODEM_MBWSSF_RAM0_BIST_STATUS
    Reg(-1, 25, 1, false, 1, true), // MODEM_MBWSSF_RAM1_BIST_STATUS
    Reg(-1, 25, 2, false, 1, true), // MODEM_MBWSSF_RAM2_BIST_STATUS
    Reg(-1, 26, 0, false, 1, true), // MCU_AGC_DATA_RAM_BIST0_STATUS
    Reg(-1, 26, 1, false, 1, true), // MCU_AGC_DATA_RAM_BIST1_STATUS
    Reg(-1, 26, 2, false, 1, true), // MCU_ARB_DATA_RAM_BIST0_STATUS
    Reg(-1, 26, 3, false, 1, true), // MCU_ARB_DATA_RAM_BIST1_STATUS
    Reg(-1, 26, 4, false, 1, true), // TX_TOP_RAM_BIST0_STATUS
    Reg(-1, 26, 5, false, 1, true), // TX_TOP_RAM_BIST1_STATUS
    Reg(-1, 26, 6, false, 1, true), // DATA_MNGT_RAM_BIST0_STATUS
    Reg(-1, 26, 7, false, 1, true), // DATA_MNGT_RAM_BIST1_STATUS
    Reg(-1, 27, 0, false, 4, false), // GPIO_SELECT_INPUT
    Reg(-1, 28, 0, false, 4, false), // GPIO_SELECT_OUTPUT
    Reg(-1, 29, 0, false, 5, false), // GPIO_MODE
    Reg(-1, 30, 0, false, 5, true), // GPIO_PIN_REG_IN
    Reg(-1, 31, 0, false, 5, false) // GPIO_PIN_REG_OUT
  ]

  const PART_4: seq<Reg> := [
    Reg(-1, 32, 0, false, 8, true), // MCU_AGC_STATUS
    Reg(-1, 125, 0, false, 8, true), // MCU_ARB_STATUS
    Reg(-1, 126, 0, false, 8, true), // CHIP_ID
    Reg(-1, 127, 0, false, 1, false), // EMERGENCY_FORCE_HOST_CTRL
    Reg(0, 33, 0, false, 1, false), // RX_INVERT_IQ
    Reg(0, 33, 1, false, 1, false), // MODEM_INVERT_IQ
    Reg(0, 33, 2, false, 1, false), // MBWSSF_MODEM_INVERT_IQ
    Reg(0, 33, 3, false, 1, false), // RX_EDGE_SELECT
    Reg(0, 33, 4, false, 1, false), // MISC_RADIO_EN
    Reg(0, 33, 5, false, 1, false), // FSK_MODEM_INVERT_IQ
    Reg(0, 34, 0, false, 4, false), // FILTER_GAIN
    Reg(0, 35, 0, false, 8, false), // RADIO_SELECT
    Reg(0, 36, 0, true, 13, false), // IF_FREQ_0
    Reg(0, 38, 0, true, 13, false), // IF_FREQ_1
    Reg(0, 40, 0, true, 13, false), // IF_FREQ_2
    Reg(0, 42, 0, true, 13, false), // IF_FREQ_3
    Reg(0, 44, 0, true, 13, false), // IF_FREQ_4
    Reg(0, 46, 0, true, 13, false), // IF_FREQ_5
    Reg(0, 48, 0, true, 13, false), // IF_FREQ_6
    Reg(0, 50, 0, true, 13, false) // IF_FREQ_7
  ]

  const PART_5: seq<Reg> := [
    Reg(0, 52, 0, true, 13, false), // IF_FREQ_8
    Reg(0, 54, 0, true, 13, false), // IF_FREQ_9
    Reg(0, 64, 0, false, 1, false), // CHANN_OVERRIDE_AGC_GAIN
    Reg(0, 64, 1, false, 4, false), // CHANN_AGC_GAIN
    Reg(0, 65, 0, false, 7, false), // CORR0_DETECT_EN
    Reg(0, 66, 0, false, 7, false), // CORR1_DETECT_EN
    Reg(0, 67, 0, false, 7, false), // CORR2_DETECT_EN
    Reg(0, 68, 0, false, 7, false), // CORR3_DETECT_EN
    Reg(0, 69, 0, false, 7, false), // CORR4_DETECT_EN
    Reg(0, 70, 0, false, 7, false), // CORR5_DETECT_EN
    Reg(0, 71, 0, false, 7, false), // CORR6_DETECT_EN
    Reg(0, 72, 0, false, 7, false), // CORR7_DETECT_EN
    Reg(0, 73, 0, false, 1, false), // CORR_SAME_PEAKS_OPTION_SF6
    Reg(0, 73, 1, false, 1, false), // CORR_SAME_PEAKS_OPTION_SF7
    Reg(0, 73, 2, false, 1, false), // CORR_SAME_PEAKS_OPTION_SF8
    Reg(0, 73, 3, false, 1, false), // CORR_SAME_PEAKS_OPTION_SF9
    Reg(0, 73, 4, false, 1, false), // CORR_SAME_PEAKS_OPTION_SF10
    Reg(0, 73, 5, false, 1, false), // CORR_SAME_PEAKS_OPTION_SF11
    Reg(0, 73, 6, false, 1, false), // CORR_SAME_PEAKS_OPTION_SF12
    Reg(0, 74, 0, false, 4, false) // CORR_SIG_NOISE_RATIO_SF6
  ]

  const PART_6: seq<Reg> := [
    Reg(0, 74, 4, false, 4, false), // CORR_SIG_NOISE_RATIO_SF7
    Reg(0, 75, 0, false, 4, false), // CORR_SIG_NOISE_RATIO_SF8
    Reg(0, 75, 4, false, 4, false), // CORR_SIG_NOISE_RATIO_SF9
    Reg(0, 76, 0, false, 4, false), // CORR_SIG_NOISE_RATIO_SF10
    Reg(0, 76, 4, false, 4, false), // CORR_SIG_NOISE_RATIO_SF11
    Reg(0, 77, 0, false, 4, false), // CORR_SIG_NOISE_RATIO_SF12
    Reg(0, 78, 0, false, 4, false), // CORR_NUM_SAME_PEAK
    Reg(0, 78, 4, false, 3, false), // CORR_MAC_GAIN
    Reg(0, 81, 0, false, 12, false), // ADJUST_MODEM_START_OFFSET_RDX4
    Reg(0, 83, 0, false, 12, false), // ADJUST_MODEM_START_OFFSET_SF12_RDX4
    Reg(0, 85, 0, false, 8, false), // DBG_CORR_SELECT_SF
    Reg(0, 86, 0, false, 8, false), // DBG_CORR_SELECT_CHANNEL
    Reg(0, 87, 0, false, 8, true), // DBG_DETECT_CPT
    Reg(0, 88, 0, false, 8, true), // DBG_SYMB_CPT
    Reg(0, 89, 0, false, 1, false), // CHIRP_INVERT_RX
    Reg(0, 89, 1, false, 1, false), // DC_NOTCH_EN
    Reg(0, 90, 0, false, 1, false), // IMPLICIT_CRC_EN
    Reg(0, 90, 1, false, 3, false), // IMPLICIT_CODING_RATE
    Reg(0, 91, 0, false, 8, false), // IMPLICIT_PAYLOAD_LENGHT
    Reg(0, 92, 0, false, 8, false) // FREQ_TO_TIME_INVERT
  ]

  const PART_7: seq<Reg> := [
    Reg(0, 93, 0, false, 6, false), // FREQ_TO_TIME_DRIFT
    Reg(0, 94, 0, false, 2, false), // PAYLOAD_FINE_TIMING_GAIN
    Reg(0, 94, 2, false, 2, false), // PREAMBLE_FINE_TIMING_GAIN
    Reg(0, 94, 4, false, 2, false), // TRACKING_INTEGRAL
    Reg(0, 95, 0, false, 4, false), // FRAME_SYNCH_PEAK1_POS
    Reg(0, 95, 4, false, 4, false), // FRAME_SYNCH_PEAK2_POS
    Reg(0, 96, 0, false, 16, false), // PREAMBLE_SYMB1_NB
    Reg(0, 98, 0, false, 1, false), // FRAME_SYNCH_GAIN
    Reg(0, 98, 1, false, 1, false), // SYNCH_DETECT_TH
    Reg(0, 99, 0, false, 4, false), // LLR_SCALE
    Reg(0, 99, 4, false, 2, false), // SNR_AVG_CST
    Reg(0, 100, 0, false, 7, false), // PPM_OFFSET
    Reg(0, 101, 0, false, 8, false), // MAX_PAYLOAD_LEN
    Reg(0, 102, 0, false, 1, false), // ONLY_CRC_EN
    Reg(0, 103, 0, false, 8, false), // ZERO_PAD
    Reg(0, 104, 0, false, 4, false), // DEC_GAIN_OFFSET
    Reg(0, 104, 4, false, 4, false), // CHAN_GAIN_OFFSET
    Reg(0, 105, 1, false, 1, false), // FORCE_HOST_RADIO_CTRL
    Reg(0, 105, 2, false, 1, false), // FORCE_HOST_FE_CTRL
    Reg(0, 105, 3, false, 1, false) // FORCE_DEC_FILTER_GAIN
  ]

  const PART_8: seq<Reg> := [
    Reg(0, 106, 0, false, 1, false), // MCU_RST_0
    Reg(0, 106, 1, false, 1, false), // MCU_RST_1
    Reg(0, 106, 2, false, 1, false), // MCU_SELECT_MUX_0
    Reg(0, 106, 3, false, 1, false), // MCU_SELECT_MUX_1
    Reg(0, 106, 4, false, 1, true), // MCU_CORRUPTION_DETECTED_0
    Reg(0, 106, 5, false, 1, true), // MCU_CORRUPTION_DETECTED_1
    Reg(0, 106, 6, false, 1, false), // MCU_SELECT_EDGE_0
    Reg(0, 106, 7, false, 1, false), // MCU_SELECT_EDGE_1
    Reg(0, 107, 0, false, 8, false), // CHANN_SELECT_RSSI
    Reg(0, 108, 0, false, 8, false), // RSSI_BB_DEFAULT_VALUE
    Reg(0, 109, 0, false, 8, false), // RSSI_DEC_DEFAULT_VALUE
    Reg(0, 110, 0, false, 8, false), // RSSI_CHANN_DEFAULT_VALUE
    Reg(0, 111, 0, false, 5, false), // RSSI_BB_FILTER_ALPHA
    Reg(0, 112, 0, false, 5, false), // RSSI_DEC_FILTER_ALPHA
    Reg(0, 113, 0, false, 5, false), // RSSI_CHANN_FILTER_ALPHA
    Reg(0, 114, 0, false, 6, false), // IQ_MISMATCH_A_AMP_COEFF
    Reg(0, 115, 0, false, 6, false), // IQ_MISMATCH_A_PHI_COEFF
    Reg(0, 116, 0, false, 6, false), // IQ_MISMATCH_B_AMP_COEFF
    Reg(0, 116, 6, false, 1, false), // IQ_MISMATCH_B_SEL_I
    Reg(0, 117, 0, false, 6, false) // IQ_MISMATCH_B_PHI_COEFF
  ]

  const PART_9: seq<Reg> := [
    Reg(1, 33, 0, false, 1, false), // TX_TRIG_IMMEDIATE
    Reg(1, 33, 1, false, 1, false), // TX_TRIG_DELAYED
    Reg(1, 33, 2, false, 1, false), // TX_TRIG_GPS
    Reg(1, 34, 0, false, 16, false), // TX_START_DELAY
    Reg(1, 36, 0, false, 4, false), // TX_FRAME_SYNCH_PEAK1_POS
    Reg(1, 36, 4, false, 4, false), // TX_FRAME_SYNCH_PEAK2_POS
    Reg(1, 37, 0, false, 3, false), // TX_RAMP_DURATION
    Reg(1, 39, 0, true, 8, false), // TX_OFFSET_I
    Reg(1, 40, 0, true, 8, false), // TX_OFFSET_Q
    Reg(1, 41, 0, false, 1, false), // TX_MODE
    Reg(1, 41, 1, false, 4, false), // TX_ZERO_PAD
    Reg(1, 41, 5, false, 1, false), // TX_EDGE_SELECT
    Reg(1, 41, 6, false, 1, false), // TX_EDGE_SELECT_TOP
    Reg(1, 42, 0, false, 2, false), // TX_GAIN
    Reg(1, 42, 2, false, 3, false), // TX_CHIRP_LOW_PASS
    Reg(1, 42, 5, false, 2, false), // TX_FCC_WIDEBAND
    Reg(1, 42, 7, false, 1, false), // TX_SWAP_IQ
    Reg(1, 43, 0, false, 1, false), // MBWSSF_IMPLICIT_HEADER
    Reg(1, 43, 1, false, 1, false), // MBWSSF_IMPLICIT_CRC_EN
    Reg(1, 43, 2, false, 3, false) // MBWSSF_IMPLICIT_CODING_RATE
  ]

  const PART_10: seq<Reg> := [
    Reg(1, 44, 0, false, 8, false), // MBWSSF_IMPLICIT_PAYLOAD_LENGHT
    Reg(1, 45, 0, false, 1, false), // MBWSSF_AGC_FREEZE_ON_DETECT
    Reg(1, 46, 0, false, 4, false), // MBWSSF_FRAME_SYNCH_PEAK1_POS
    Reg(1, 46, 4, false, 4, false), // MBWSSF_FRAME_SYNCH_PEAK2_POS
    Reg(1, 47, 0, false, 16, false), // MBWSSF_PREAMBLE_SYMB1_NB
    Reg(1, 49, 0, false, 1, false), // MBWSSF_FRAME_SYNCH_GAIN
    Reg(1, 49, 1, false, 1, false), // MBWSSF_SYNCH_DETECT_TH
    Reg(1, 50, 0, false, 8, false), // MBWSSF_DETECT_MIN_SINGLE_PEAK
    Reg(1, 51, 0, false, 3, false), // MBWSSF_DETECT_TRIG_SAME_PEAK_NB
    Reg(1, 52, 0, false, 8, false), // MBWSSF_FREQ_TO_TIME_INVERT
    Reg(1, 53, 0, false, 6, false), // MBWSSF_FREQ_TO_TIME_DRIFT
    Reg(1, 54, 0, false, 12, false), // MBWSSF_PPM_CORRECTION
    Reg(1, 56, 0, false, 2, false), // MBWSSF_PAYLOAD_FINE_TIMING_GAIN
    Reg(1, 56, 2, false, 2, false), // MBWSSF_PREAMBLE_FINE_TIMING_GAIN
    Reg(1, 56, 4, false, 2, false), // MBWSSF_TRACKING_INTEGRAL
    Reg(1, 57, 0, false, 8, false), // MBWSSF_ZERO_PAD
    Reg(1, 58, 0, false, 2, false), // MBWSSF_MODEM_BW
    Reg(1, 58, 2, false, 1, false), // MBWSSF_RADIO_SELECT
    Reg(1, 58, 3, false, 1, false), // MBWSSF_RX_CHIRP_INVERT
    Reg(1, 59, 0, false, 4, false) // MBWSSF_LLR_SCALE
  ]

  const PART_11: seq<Reg> := [
    Reg(1, 59, 4, false, 2, false), // MBWSSF_SNR_AVG_CST
    Reg(1, 59, 6, false, 1, false), // MBWSSF_PPM_OFFSET
    Reg(1, 60, 0, false, 4, false), // MBWSSF_RATE_SF
    Reg(1, 60, 4, false, 1, false), // MBWSSF_ONLY_CRC_EN
    Reg(1, 61, 0, false, 8, false), // MBWSSF_MAX_PAYLOAD_LEN
    Reg(1, 62, 0, false, 8, true), // TX_STATUS
    Reg(1, 63, 0, false, 3, false), // FSK_CH_BW_EXPO
    Reg(1, 63, 3, false, 3, false), // FSK_RSSI_LENGTH
    Reg(1, 63, 6, false, 1, false), // FSK_RX_INVERT
    Reg(1, 63, 7, false, 1, false), // FSK_PKT_MODE
    Reg(1, 64, 0, false, 3, false), // FSK_PSIZE
    Reg(1, 64, 3, false, 1, false), // FSK_CRC_EN
    Reg(1, 64, 4, false, 2, false), // FSK_DCFREE_ENC
    Reg(1, 64, 6, false, 1, false), // FSK_CRC_IBM
    Reg(1, 65, 0, false, 5, false), // FSK_ERROR_OSR_TOL
    Reg(1, 65, 7, false, 1, false), // FSK_RADIO_SELECT
    Reg(1, 66, 0, false, 16, false), // FSK_BR_RATIO
    Reg(1, 68, 0, false, 32, false), // FSK_REF_PATTERN_LSB
    Reg(1, 72, 0, false, 32, false), // FSK_REF_PATTERN_MSB
    Reg(1, 76, 0, false, 8, false) // FSK_PKT_LENGTH
  ]

  const PART_12: seq<Reg> := [
    Reg(1, 77, 0, false, 1, false), // FSK_TX_GAUSSIAN_EN
    Reg(1, 77, 1, false, 2, false), // FSK_TX_GAUSSIAN_SELECT_BT
    Reg(1, 77, 3, false, 1, false), // FSK_TX_PATTERN_EN
    Reg(1, 77, 4, false, 1, false), // FSK_TX_PREAMBLE_SEQ
    Reg(1, 77, 5, false, 3, false), // FSK_TX_PSIZE
    Reg(1, 80, 0, false, 8, false), // FSK_NODE_ADRS
    Reg(1, 81, 0, false, 8, false), // FSK_BROADCAST
    Reg(1, 82, 0, false, 1, false), // FSK_AUTO_AFC_ON
    Reg(1, 83, 0, false, 10, false), // FSK_PATTERN_TIMEOUT_CFG
    Reg(2, 33, 0, false, 8, false), // SPI_RADIO_A__DATA
    Reg(2, 34, 0, false, 8, true), // SPI_RADIO_A__DATA_READBACK
    Reg(2, 35, 0, false, 8, false), // SPI_RADIO_A__ADDR
    Reg(2, 37, 0, false, 1, false), // SPI_RADIO_A__CS
    Reg(2, 38, 0, false, 8, false), // SPI_RADIO_B__DATA
    Reg(2, 39, 0, false, 8, true), // SPI_RADIO_B__DATA_READBACK
    Reg(2, 40, 0, false, 8, false), // SPI_RADIO_B__ADDR
    Reg(2, 42, 0, false, 1, false), // SPI_RADIO_B__CS
    Reg(2, 43, 0, false, 1, false), // RADIO_A_EN
    Reg(2, 43, 1, false, 1, false), // RADIO_B_EN
    Reg(2, 43, 2, false, 1, false) // RADIO_RST
  ]

  const PART_13: seq<Reg> := [
    Reg(2, 43, 3, false, 1, false), // LNA_A_EN
    Reg(2, 43, 4, false, 1, false), // PA_A_EN
    Reg(2, 43, 5, false, 1, false), // LNA_B_EN
    Reg(2, 43, 6, false, 1, false), // PA_B_EN
    Reg(2, 44, 0, false, 2, false), // PA_GAIN
    Reg(2, 45, 0, false, 4, false), // LNA_A_CTRL_LUT
    Reg(2, 45, 4, false, 4, false), // PA_A_CTRL_LUT
    Reg(2, 46, 0, false, 4, false), // LNA_B_CTRL_LUT
    Reg(2, 46, 4, false, 4, false), // PA_B_CTRL_LUT
    Reg(2, 47, 0, false, 5, false), // CAPTURE_SOURCE
    Reg(2, 47, 5, false, 1, false), // CAPTURE_START
    Reg(2, 47, 6, false, 1, false), // CAPTURE_FORCE_TRIGGER
    Reg(2, 47, 7, false, 1, false), // CAPTURE_WRAP
    Reg(2, 48, 0, false, 16, false), // CAPTURE_PERIOD
    Reg(2, 51, 0, false, 8, true), // MODEM_STATUS
    Reg(2, 52, 0, false, 8, true), // VALID_HEADER_COUNTER_0
    Reg(2, 54, 0, false, 8, true), // VALID_PACKET_COUNTER_0
    Reg(2, 56, 0, false, 8, true), // VALID_HEADER_COUNTER_MBWSSF
    Reg(2, 57, 0, false, 8, true), // VALID_HEADER_COUNTER_FSK
    Reg(2, 58, 0, false, 8, true) // VALID_PACKET_COUNTER_MBWSSF
  ]

  const PART_14: seq<Reg> := [
    Reg(2, 59, 0, false, 8, true), // VALID_PACKET_COUNTER_FSK
    Reg(2, 60, 0, false, 8, true), // CHANN_RSSI
    Reg(2, 61, 0, false, 8, true), // BB_RSSI
    Reg(2, 62, 0, false, 8, true), // DEC_RSSI
    Reg(2, 63, 0, false, 8, true), // DBG_MCU_DATA
    Reg(2, 64, 0, false, 8, true), // DBG_ARB_MCU_RAM_DATA
    Reg(2, 65, 0, false, 8, true), // DBG_AGC_MCU_RAM_DATA
    Reg(2, 66, 0, false, 16, true), // NEXT_PACKET_CNT
    Reg(2, 68, 0, false, 16, true), // ADDR_CAPTURE_COUNT
    Reg(2, 70, 0, false, 32, true), // TIMESTAMP
    Reg(2, 74, 0, false, 4, true), // DBG_CHANN0_GAIN
    Reg(2, 74, 4, false, 4, true), // DBG_CHANN1_GAIN
    Reg(2, 75, 0, false, 4, true), // DBG_CHANN2_GAIN
    Reg(2, 75, 4, false, 4, true), // DBG_CHANN3_GAIN
    Reg(2, 76, 0, false, 4, true), // DBG_CHANN4_GAIN
    Reg(2, 76, 4, false, 4, true), // DBG_CHANN5_GAIN
    Reg(2, 77, 0, false, 4, true), // DBG_CHANN6_GAIN
    Reg(2, 77, 4, false, 4, true), // DBG_CHANN7_GAIN
    Reg(2, 78, 0, false, 4, true), // DBG_DEC_FILT_GAIN
    Reg(2, 79, 0, false, 3, true) // SPI_DATA_FIFO_PTR
  ]

  const PART_15: seq<Reg> := [
    Reg(2, 79, 3, false, 3, true), // PACKET_DATA_FIFO_PTR
    Reg(2, 80, 0, false, 8, false), // DBG_ARB_MCU_RAM_ADDR
    Reg(2, 81, 0, false, 8, false), // DBG_AGC_MCU_RAM_ADDR
    Reg(2, 82, 0, false, 1, false), // SPI_MASTER_CHIP_SELECT_POLARITY
    Reg(2, 82, 1, false, 1, false), // SPI_MASTER_CPOL
    Reg(2, 82, 2, false, 1, false), // SPI_MASTER_CPHA
    Reg(2, 83, 0, false, 1, false), // SIG_GEN_ANALYSER_MUX_SEL
    Reg(2, 84, 0, false, 1, false), // SIG_GEN_EN
    Reg(2, 84, 1, false, 1, false), // SIG_ANALYSER_EN
    Reg(2, 84, 2, false, 2, false), // SIG_ANALYSER_AVG_LEN
    Reg(2, 84, 4, false, 3, false), // SIG_ANALYSER_PRECISION
    Reg(2, 84, 7, false, 1, true), // SIG_ANALYSER_VALID_OUT
    Reg(2, 85, 0, false, 8, false), // SIG_GEN_FREQ
    Reg(2, 86, 0, false, 8, false), // SIG_ANALYSER_FREQ
    Reg(2, 87, 0, false, 8, true), // SIG_ANALYSER_I_OUT
    Reg(2, 88, 0, false, 8, true), // SIG_ANALYSER_Q_OUT
    Reg(2, 89, 0, false, 1, false), // GPS_EN
    Reg(2, 89, 1, false, 1, false), // GPS_POL
    Reg(2, 90, 0, true, 8, false), // SW_TEST_REG1
    Reg(2, 91, 2, true, 6, false) // SW_TEST_REG2
  ]

  const PART_16: seq<Reg> := [
    Reg(2, 92, 0, true, 16, false), // SW_TEST_REG3
    Reg(2, 94, 0, false, 4, true), // DATA_MNGT_STATUS
    Reg(2, 95, 0, false, 5, true), // DATA_MNGT_CPT_FRAME_ALLOCATED
    Reg(2, 96, 0, false, 5, true), // DATA_MNGT_CPT_FRAME_FINISHED
    Reg(2, 97, 0, false, 5, true), // DATA_MNGT_CPT_FRAME_READEN
    Reg(1, 33, 0, false, 8, false) // TX_TRIG_ALL (alias)
  ]

  function Part(k: nat): (part: seq<Reg>)
    requires k < 17
    ensures |part| == if k < 16 then PART else 6
  {
    if k == 0 then PART_0 else if k == 1 then PART_1 else if k == 2 then PART_2 else if k == 3 then PART_3 else 
    if k == 4 then PART_4 else if k == 5 then PART_5 else if k == 6 then PART_6 else if k == 7 then PART_7 else 
    if k == 8 then PART_8 else if k == 9 then PART_9 else if k == 10 then PART_10 else if k == 11 then PART_11 else 
    if k == 12 then PART_12 else if k == 13 then PART_13 else if k == 14 then PART_14 else if k == 15 then PART_15 else 
    PART_16
  }

  function Loregs(id: nat): Reg
    requires id < LGW_TOTALREGS
  {
    Part(id / PART)[id % PART]
  }

  /** In one byte, or whole bytes from a byte's lowest bit on. */
  predicate InByte(r: Reg) {
    r.offs + r.leng <= 8
  }

  function Bytes(r: Reg): int {
    if InByte(r) then 1 else (r.leng + 7) / 8
  }

  /** Of a supported size, within the addresses that are paged or within those that are not. */
  predicate Placed(r: Reg) {
    && 0 <= r.offs <= 7 && 1 <= r.leng <= 32 && (InByte(r) || r.offs == 0)
    && -1 <= r.page <= 3
    && (r.page == -1 ==> (0 <= r.addr && r.addr + Bytes(r) <= 33) || (125 <= r.addr && r.addr + Bytes(r) <= 128))
    && (r.page >= 0 ==> 33 <= r.addr && r.addr + Bytes(r) <= 125)
  }

  /** The first bit of a register in the order of the table, and the bit after its last. */
  function Key(r: Reg): int {
    r.page * 1024 + r.addr * 8 + r.offs
  }

  function End(r: Reg): int {
    if InByte(r) then Key(r) + r.leng else Key(r) + 8 * Bytes(r)
  }

  lemma Part0Placed()
    ensures forall i :: 0 <= i < |PART_0| ==> Placed(PART_0[i])
  {
  }

  lemma Part0InOrder()
    ensures forall i :: 0 <= i < |PART_0| - 1 ==> End(PART_0[i]) <= Key(PART_0[i + 1])
  {
  }

  lemma Part1Placed()
    ensures forall i :: 0 <= i < |PART_1| ==> Placed(PART_1[i])
  {
  }

  lemma Part1InOrder()
    ensures forall i :: 0 <= i < |PART_1| - 1 ==> End(PART_1[i]) <= Key(PART_1[i + 1])
  {
  }

  lemma Part2Placed()
    ensures forall i :: 0 <= i < |PART_2| ==> Placed(PART_2[i])
  {
  }

  lemma Part2InOrder()
    ensures forall i :: 0 <= i < |PART_2| - 1 ==> End(PART_2[i]) <= Key(PART_2[i + 1])
  {
  }

  lemma Part3Placed()
    ensures forall i :: 0 <= i < |PART_3| ==> Placed(PART_3[i])
  {
  }

  lemma Part3InOrder()
    ensures forall i :: 0 <= i < |PART_3| - 1 ==> End(PART_3[i]) <= Key(PART_3[i + 1])
  {
  }

  lemma Part4Placed()
    ensures forall i :: 0 <= i < |PART_4| ==> Placed(PART_4[i])
  {
  }

  lemma Part4InOrder()
    ensures forall i :: 0 <= i < |PART_4| - 1 ==> End(PART_4[i]) <= Key(PART_4[i + 1])
  {
  }

  lemma Part5Placed()
    ensures forall i :: 0 <= i < |PART_5| ==> Placed(PART_5[i])
  {
  }

  lemma Part5InOrder()
    ensures forall i :: 0 <= i < |PART_5| - 1 ==> End(PART_5[i]) <= Key(PART_5[i + 1])
  {
  }

  lemma Part6Placed()
    ensures forall i :: 0 <= i < |PART_6| ==> Placed(PART_6[i])
  {
  }

  lemma Part6InOrder()
    ensures forall i :: 0 <= i < |PART_6| - 1 ==> End(PART_6[i]) <= Key(PART_6[i + 1])
  {
  }

  lemma Part7Placed()
    ensures forall i :: 0 <= i < |PART_7| ==> Placed(PART_7[i])
  {
  }

  lemma Part7InOrder()
    ensures forall i :: 0 <= i < |PART_7| - 1 ==> End(PART_7[i]) <= Key(PART_7[i + 1])
  {
  }

  lemma Part8Placed()
    ensures forall i :: 0 <= i < |PART_8| ==> Placed(PART_8[i])
  {
  }

  lemma Part8InOrder()
    ensures forall i :: 0 <= i < |PART_8| - 1 ==> End(PART_8[i]) <= Key(PART_8[i + 1])
  {
  }

  lemma Part9Placed()
    ensures forall i :: 0 <= i < |PART_9| ==> Placed(PART_9[i])
  {
  }

  lemma Part9InOrder()
    ensures forall i :: 0 <= i < |PART_9| - 1 ==> End(PART_9[i]) <= Key(PART_9[i + 1])
  {
  }

  lemma Part10Placed()
    ensures forall i :: 0 <= i < |PART_10| ==> Placed(PART_10[i])
  {
  }

  lemma Part10InOrder()
    ensures forall i :: 0 <= i < |PART_10| - 1 ==> End(PART_10[i]) <= Key(PART_10[i + 1])
  {
  }

  lemma Part11Placed()
    ensures forall i :: 0 <= i < |PART_11| ==> Placed(PART_11[i])
  {
  }

  lemma Part11InOrder()
    ensures forall i :: 0 <= i < |PART_11| - 1 ==> End(PART_11[i]) <= Key(PART_11[i + 1])
  {
  }

  lemma Part12Placed()
    ensures forall i :: 0 <= i < |PART_12| ==> Placed(PART_12[i])
  {
  }

  lemma Part12InOrder()
    ensures forall i :: 0 <= i < |PART_12| - 1 ==> End(PART_12[i]) <= Key(PART_12[i + 1])
  {
  }

  lemma Part13Placed()
    ensures forall i :: 0 <= i < |PART_13| ==> Placed(PART_13[i])
  {
  }

  lemma Part13InOrder()
    ensures forall i :: 0 <= i < |PART_13| - 1 ==> End(PART_13[i]) <= Key(PART_13[i + 1])
  {
  }

  lemma Part14Placed()
    ensures forall i :: 0 <= i < |PART_14| ==> Placed(PART_14[i])
  {
  }

  lemma Part14InOrder()
    ensures forall i :: 0 <= i < |PART_14| - 1 ==> End(PART_14[i]) <= Key(PART_14[i + 1])
  {
  }

  lemma Part15Placed()
    ensures forall i :: 0 <= i < |PART_15| ==> Placed(PART_15[i])
  {
  }

  lemma Part15InOrder()
    ensures forall i :: 0 <= i < |PART_15| - 1 ==> End(PART_15[i]) <= Key(PART_15[i + 1])
  {
  }

  lemma Part16Placed()
    ensures forall i :: 0 <= i < |PART_16| ==> Placed(PART_16[i])
  {
  }

  lemma Part16InOrder()
    ensures forall i :: 0 <= i < |PART_16| - 2 ==> End(PART_16[i]) <= Key(PART_16[i + 1])
  {
  }

  lemma PartPlaced(k: nat)
    requires k < 17
    ensures forall i :: 0 <= i < |Part(k)| ==> Placed(Part(k)[i])
  {
    hide Placed;
    Part0Placed();
    Part1Placed();
    Part2Placed();
    Part3Placed();
    Part4Placed();
    Part5Placed();
    Part6Placed();
    Part7Placed();
    Part8Placed();
    Part9Placed();
    Part10Placed();
    Part11Placed();
    Part12Placed();
    Part13Placed();
    Part14Placed();
    Part15Placed();
    Part16Placed();
  }

  /** Every register of the table is of a supported size and within its page's addresses. */
  lemma RegisterPlaced(id: nat)
    requires id < LGW_TOTALREGS
    ensures Placed(Loregs(id))
  {
    hide Placed, Part;
    PartPlaced(id / PART);
  }

  lemma PartInOrder(k: nat, i: nat)
    requires k < 17 && i + 1 < |Part(k)| && k * PART + i + 1 < LGW_TX_TRIG_ALL
    ensures End(Part(k)[i]) <= Key(Part(k)[i + 1])
  {
    hide End, Key;
    Part0InOrder();
    Part1InOrder();
    Part2InOrder();
    Part3InOrder();
    Part4InOrder();
    Part5InOrder();
    Part6InOrder();
    Part7InOrder();
    Part8InOrder();
    Part9InOrder();
    Part10InOrder();
    Part11InOrder();
    Part12InOrder();
    Part13InOrder();
    Part14InOrder();
    Part15InOrder();
    Part16InOrder();
  }

  /** From the end of one part to the start of the next. */
  lemma PartsInOrder(k: nat)
    requires k < 16
    ensures End(Part(k)[PART - 1]) <= Key(Part(k + 1)[0])
  {
  }

  lemma NextInOrder(id: nat)
    requires id + 1 < LGW_TX_TRIG_ALL
    ensures End(Loregs(id)) <= Key(Loregs(id + 1))
  {
    hide Part, End, Key;
    if id % PART == PART - 1 {
      PartsInOrder(id / PART);
      assert (id + 1) / PART == id / PART + 1 && (id + 1) % PART == 0;
    } else {
      PartInOrder(id / PART, id % PART);
      assert (id + 1) / PART == id / PART && (id + 1) % PART == id % PART + 1;
    }
  }

  /** The registers but the last lie one after the other: no two of them share a bit. */
  lemma {:induction false} InOrder(id: nat, later: nat)
    requires id < later < LGW_TX_TRIG_ALL
    ensures End(Loregs(id)) <= Key(Loregs(later))
    decreases later
  {
    hide Loregs, Key, Placed;
    NextInOrder(later - 1);
    if id < later - 1 {
      InOrder(id, later - 1);
      RegisterPlaced(later - 1);
      KeyBeforeEnd(Loregs(later - 1));
    }
  }

  lemma KeyBeforeEnd(r: Reg)
    requires Placed(r)
    ensures Key(r) < End(r)
  {
  }
}
